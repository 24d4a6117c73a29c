/** One finalizer and the observers around it, or no finalizer at all: how often the ErrorHandler runs,
    what the client gets, and what the observers report. */
module HttpFinalizer {
  import opened Wrappers
  import opened ErrorTree
  import opened HttpChain
  import opened HttpChainTheorems

  // ---------------------------------------------------------------- outcome and status, apart from any telemetry

  predicate IsObserver(m: Middleware) {
    m == Logging(false) || (m.Telemetry? && m.mode != Off)
  }

  ghost predicate HasNoFinalizer(stack: seq<Middleware>) {
    forall m :: m in stack ==> !m.Finalizer?
  }

  /** What middleware other than a finalizer make of an outcome and a status: observers keep a decided
      response to themselves, and everything normalizes but the application's own. */
  function Through(stack: seq<Middleware>, decided: bool, out: Outcome, status: int): (Outcome, int) {
    if stack == [] then (out, status)
    else
      var (o, st) := Through(stack[1..], decided, out, status);
      if stack[0].App? then stack[0].after(o, st)
      else if IsObserver(stack[0]) && decided && o.Returned? then (Returned(None), st)
      else (NormalizeOutcome(o), st)
  }

  /** What reaches the finalizer from below, and the status written by then. */
  function Inner(lower: seq<Middleware>, cfg: Config): (Outcome, int) {
    Through(lower, false, cfg.outcome, cfg.handlerStatus)
  }

  /** The status the finalizer decides for an error that reached it. */
  function DecidedStatus(cfg: Config, raw: Option<Err>, status: int): int {
    if raw.None? then status else HandledStatus(cfg, MakeSafe(Normalize(raw).value), status)
  }

  /** What leaves the finalizer: nothing to render, or the panic that crossed it. */
  function Decide(cfg: Config, inner: (Outcome, int)): (Outcome, int) {
    if inner.0.Panicked? then inner else (Returned(None), DecidedStatus(cfg, inner.0.err, inner.1))
  }

  /** What the whole stack hands to Fiber, and the status on the response by then. */
  function Outer(upper: seq<Middleware>, lower: seq<Middleware>, cfg: Config): (Outcome, int) {
    var inner := Inner(lower, cfg);
    var (out, status) := Decide(cfg, inner);
    Through(upper, inner.0.Returned?, out, status)
  }

  function IsError(out: Outcome): int {
    if out.Returned? && out.err.Some? then 1 else 0
  }

  lemma LayerHandlerRuns(m: Middleware, cfg: Config, s0: State, s: State, out: Outcome)
    ensures Opening(m, cfg, s0, HandlerRunWeight) + Closing(m, cfg, s0, s, out, HandlerRunWeight)
            == if m.Finalizer? then IsError(out) else 0
  {
    assert Tally(Observe(s, out).diagnosed, HandlerRunWeight) == 0;
  }

  /** One middleware above or below the finalizer. */
  lemma LayerThrough(m: Middleware, cfg: Config, s0: State, s: State, out: Outcome)
    requires !m.Finalizer? && |s.slots| >= |s0.slots|
    ensures var (r, out') := After(m, cfg, s0, s, out);
            && r.slots == s.slots
            && (out', r.status) == (if m.App? then m.after(out, s.status)
                                    else if IsObserver(m) && IsFinalized(s) && out.Returned?
                                    then (Returned(None), s.status)
                                    else (NormalizeOutcome(out), s.status))
            && Tally(r.events, HandlerRunWeight) - Tally(s.events, HandlerRunWeight)
               == Tally(s0.events, HandlerRunWeight) - Tally(Before(m, cfg, s0).events, HandlerRunWeight)
  {
    TallyBefore(m, cfg, s0, HandlerRunWeight);
    TallyAfter(m, cfg, s0, s, out, HandlerRunWeight);
    LayerHandlerRuns(m, cfg, s0, s, out);
  }

  lemma {:induction false} BelowFinalizer(lower: seq<Middleware>, cfg: Config, s: State)
    requires HasNoFinalizer(lower) && !IsFinalized(s)
    ensures var (r, out) := Exec(lower, cfg, s);
            && (out, r.status) == Inner(lower, cfg) && r.slots == s.slots
            && Tally(r.events, HandlerRunWeight) == Tally(s.events, HandlerRunWeight)
  {
    if lower == [] {
      TallyHandler(cfg, s, HandlerRunWeight);
    } else {
      var s0 := Before(lower[0], cfg, s);
      BelowFinalizer(lower[1..], cfg, s0);
      var (s1, out) := Exec(lower[1..], cfg, s0);
      LayerThrough(lower[0], cfg, s, s1, out);
    }
  }

  /** The slot a finalizer leaves: filled in, or untouched by a panic. */
  function SlotOf(cfg: Config, inner: (Outcome, int)): Slot {
    if inner.0.Panicked? then Slot(None, 0, false)
    else Slot(Original(inner.0.err), DecidedStatus(cfg, inner.0.err, inner.1), true)
  }

  /** Whatever middleware lie below it: the finalizer returns nil with the decided status, and runs the
      ErrorHandler once if and only if an error arrived; a panic passes with nothing finalized. */
  lemma FinalizerDecides(lower: seq<Middleware>, cfg: Config, s: State)
    requires HasNoFinalizer(lower)
    ensures var (r, out) := Exec([Finalizer] + lower, cfg, s);
            var inner := Inner(lower, cfg);
            && (out, r.status) == Decide(cfg, inner)
            && r.slots == s.slots + [SlotOf(cfg, inner)]
            && Tally(r.events, HandlerRunWeight) == Tally(s.events, HandlerRunWeight) + IsError(inner.0)
  {
    hide Inner, MakeSafe, Normalize, Tally;
    var s0 := Before(Finalizer, cfg, s);
    assert ([Finalizer] + lower)[1..] == lower;
    BelowFinalizer(lower, cfg, s0);
    var (s1, out) := Exec(lower, cfg, s0);
    TallyAfter(Finalizer, cfg, s, s1, out, HandlerRunWeight);
    LayerHandlerRuns(Finalizer, cfg, s, s1, out);
  }

  lemma {:induction false} AroundFinalizer(upper: seq<Middleware>, lower: seq<Middleware>, cfg: Config, s: State)
    requires HasNoFinalizer(upper) && HasNoFinalizer(lower)
    ensures var (r, out) := Exec(upper + ([Finalizer] + lower), cfg, s);
            && (out, r.status) == Outer(upper, lower, cfg)
            && r.slots == s.slots + [SlotOf(cfg, Inner(lower, cfg))]
            && Tally(r.events, HandlerRunWeight) == Tally(s.events, HandlerRunWeight) + IsError(Inner(lower, cfg).0)
  {
    hide Inner, DecidedStatus, Tally, NormalizeOutcome;
    var rest := [Finalizer] + lower;
    if upper == [] {
      assert upper + rest == rest;
      FinalizerDecides(lower, cfg, s);
    } else {
      assert (upper + rest)[1..] == upper[1..] + rest;
      var s0 := Before(upper[0], cfg, s);
      AroundFinalizer(upper[1..], lower, cfg, s0);
      var (s1, out) := Exec(upper[1..] + rest, cfg, s0);
      LayerThrough(upper[0], cfg, s, s1, out);
    }
  }

  // ---------------------------------------------------------------- how often the ErrorHandler runs

  /** Fiber's own dispatch: an error that leaves the chain goes to the ErrorHandler, unguarded. */
  function Dispatch(stack: seq<Middleware>, cfg: Config, s: State): (State, Outcome) {
    var (r, out) := Exec(stack, cfg, s);
    match out
    case Returned(Some(e)) =>
      var answered := Emit(r, [ErrorHandlerRun(e)]);
      (match cfg.errorHandler(e, r.status)
       case Rendered(st) => (answered.(status := st), Returned(None))
       case Failed(_) => (answered.(status := INTERNAL_SERVER_ERROR), Returned(None))
       case Crashed(st, v) => (answered.(status := st), Panicked(v)))
    case _ => (r, out)
  }

  /** For every stack with one finalizer and every handler outcome, panics and recovering, panicking or
      status-writing middleware included: the ErrorHandler runs once if an error reached the finalizer,
      and once more if and only if an error left the stack. */
  lemma ErrorHandlerRunsExactly(upper: seq<Middleware>, lower: seq<Middleware>, cfg: Config, s: State)
    requires HasNoFinalizer(upper) && HasNoFinalizer(lower)
    ensures var (r, _) := Dispatch(upper + ([Finalizer] + lower), cfg, s);
            Tally(r.events, HandlerRunWeight) == Tally(s.events, HandlerRunWeight) + IsError(Inner(lower, cfg).0)
                                                 + IsError(Outer(upper, lower, cfg).0)
  {
    hide Exec, Outer, Inner;
    AroundFinalizer(upper, lower, cfg, s);
    var (r, out) := Exec(upper + ([Finalizer] + lower), cfg, s);
    if IsError(out) == 1 {
      TallyConcat(r.events, [ErrorHandlerRun(out.err.value)], HandlerRunWeight);
    }
  }

  // ---------------------------------------------------------------- what the observers above report

  /** A middleware that neither raises a panic of its own nor is a finalizer. */
  ghost predicate Upper(m: Middleware) {
    !m.Finalizer? && (m.App? ==> forall out: Outcome, st :: out.Returned? ==> m.after(out, st).0.Returned?)
  }

  /** A middleware above the finalizer that leaves the status alone. */
  ghost predicate WritesNoStatus(m: Middleware) {
    m.App? ==> forall out, st :: m.after(out, st).1 == st
  }

  /** An observer that leaves a report with a status in the log. */
  predicate LeavesReport(m: Middleware) {
    m == Logging(false) || (m.Telemetry? && (m.mode == Tracing || (m.mode == MetricsOnly && m.metered)))
  }

  lemma {:induction false} NoReportsBelow(lower: seq<Middleware>, cfg: Config, s: State, n: nat, status: int,
                                          cause: Cause)
    requires forall m :: m in lower ==> !m.Finalizer? && !IsObserver(m)
    requires n <= |s.events| && ReportsSince(s.events, n, status, cause)
    ensures ReportsSince(Exec(lower, cfg, s).0.events, n, status, cause)
  {
    if lower != [] {
      var m := lower[0];
      assert Before(m, cfg, s) == s;
      NoReportsBelow(lower[1..], cfg, s, n, status, cause);
      var (s1, out) := Exec(lower[1..], cfg, s);
      if m.App? || m.EndSpans? {
        ReportsAfter(m, cfg, s, s1, out, n, status, cause);
      }
    }
  }

  /** The cause a report must carry: the very error the handler returned, or what a typed nil became. */
  function ReportedCause(raw: Option<Err>): Cause {
    match raw
    case None => NoCause
    case Some(e) => if IsTypedNil(e) then Because(ERR_INTERNAL_SERVER_ERROR) else Because(e)
  }

  /** Everything above a finalizer reports the status it decided and the error the handler returned. */
  lemma {:induction false} ObserversReportDecided(upper: seq<Middleware>, lower: seq<Middleware>, cfg: Config, s: State,
                                                  raw: Option<Err>, n: nat)
    requires forall m :: m in upper ==> Upper(m)
    requires forall m :: m in lower ==> !m.Finalizer? && !IsObserver(m)
    requires Inner(lower, cfg).0 == Returned(raw)
    requires n <= |s.events|
    requires ReportsSince(s.events, n, DecidedStatus(cfg, raw, Inner(lower, cfg).1), ReportedCause(raw))
    ensures var (r, out) := Exec(upper + ([Finalizer] + lower), cfg, s);
            && out.Returned?
            && ReportsSince(r.events, n, DecidedStatus(cfg, raw, Inner(lower, cfg).1), ReportedCause(raw))
  {
    hide Inner, DecidedStatus;
    var decided, cause := DecidedStatus(cfg, raw, Inner(lower, cfg).1), ReportedCause(raw);
    var rest := [Finalizer] + lower;
    if upper == [] {
      assert upper + rest == rest && rest[1..] == lower;
      var s0 := Before(Finalizer, cfg, s);
      NoReportsBelow(lower, cfg, s0, n, decided, cause);
      BelowFinalizer(lower, cfg, s0);
      var (s1, out) := Exec(lower, cfg, s0);
      ReportsAfter(Finalizer, cfg, s, s1, out, n, decided, cause);
    } else {
      var m := upper[0];
      assert (upper + rest)[1..] == upper[1..] + rest;
      var s0 := Before(m, cfg, s);
      ReportsBefore(m, cfg, s, n, decided, cause);
      ObserversReportDecided(upper[1..], lower, cfg, s0, raw, n);
      AroundFinalizer(upper[1..], lower, cfg, s0);
      var (s1, out) := Exec(upper[1..] + rest, cfg, s0);
      assert Upper(m);
      LayerThrough(m, cfg, s, s1, out);
      ReportsAfter(m, cfg, s, s1, out, n, decided, cause);
    }
  }

  lemma {:induction false} StatusLeftAlone(stack: seq<Middleware>, decided: bool, out: Outcome, status: int)
    requires forall m :: m in stack ==> WritesNoStatus(m)
    ensures Through(stack, decided, out, status).1 == status
  {
    if stack != [] {
      StatusLeftAlone(stack[1..], decided, out, status);
      assert WritesNoStatus(stack[0]);
    }
  }

  /** With an observer outermost, whatever the middleware in between return and even when the
      ErrorHandler fails or panics: nothing reaches Fiber, the ErrorHandler has run exactly once if an
      error reached the finalizer and never otherwise, and every access line, span and duration carries
      the decided status and the error the handler really returned. That is the status the client gets
      if and only if the statuses written above the finalizer leave it as decided. */
  lemma ResponseIsRenderedOnceAndReportedAsSent(upper: seq<Middleware>, lower: seq<Middleware>, cfg: Config, s: State,
                                                raw: Option<Err>)
    requires upper != [] && IsObserver(upper[0])
    requires forall m :: m in upper ==> Upper(m)
    requires forall m :: m in lower ==> !m.Finalizer? && !IsObserver(m)
    requires Inner(lower, cfg).0 == Returned(raw)
    ensures var (r, out) := Dispatch(upper + ([Finalizer] + lower), cfg, s);
            var decided := DecidedStatus(cfg, raw, Inner(lower, cfg).1);
            var cause := if raw.None? then NoCause
                         else if IsTypedNil(raw.value) then Because(ERR_INTERNAL_SERVER_ERROR)
                         else Because(raw.value);
            && out == Returned(None)
            && r.status == Through(upper, true, Returned(None), decided).1
            && (raw.None? ==> decided == Inner(lower, cfg).1)
            && (raw.Some? ==>
                 match cfg.errorHandler(MakeSafe(Normalize(raw).value), Inner(lower, cfg).1)
                 case Rendered(st) => decided == st
                 case _ => decided == INTERNAL_SERVER_ERROR)
            && Tally(r.events, HandlerRunWeight) == Tally(s.events, HandlerRunWeight) + (if raw.Some? then 1 else 0)
            && ReportsSince(r.events, |s.events|, decided, cause)
            && (LeavesReport(upper[0]) ==>
                 (ReportsSince(r.events, |s.events|, r.status, cause)
                  <==> Through(upper, true, Returned(None), decided).1 == decided))
            && ((forall m :: m in upper ==> WritesNoStatus(m)) ==> r.status == decided)
  {
    hide Inner, MakeSafe, Normalize;
    var stack := upper + ([Finalizer] + lower);
    var decided, cause := DecidedStatus(cfg, raw, Inner(lower, cfg).1), ReportedCause(raw);
    ObserversReportDecided(upper, lower, cfg, s, raw, |s.events|);
    ErrorHandlerRunsExactly(upper, lower, cfg, s);
    AroundFinalizer(upper, lower, cfg, s);
    if forall m :: m in upper ==> WritesNoStatus(m) {
      StatusLeftAlone(upper, true, Returned(None), decided);
    }
    if LeavesReport(upper[0]) {
      OutermostReports(stack, cfg, s, decided, cause);
    }
  }

  /** An observer outermost that leaves reports at all leaves one that shows the reported status. */
  lemma OutermostReports(stack: seq<Middleware>, cfg: Config, s: State, status: int, cause: Cause)
    requires stack != [] && LeavesReport(stack[0])
    requires ReportsSince(Exec(stack, cfg, s).0.events, |s.events|, status, cause)
    ensures forall other :: ReportsSince(Exec(stack, cfg, s).0.events, |s.events|, other, cause) ==> other == status
  {
    var m := stack[0];
    var s0 := Before(m, cfg, s);
    var (s1, out) := Exec(stack[1..], cfg, s0);
    var o := Observe(s1, out);
    var log := Exec(stack, cfg, s).0.events;
    var k := |s1.events| + |o.diagnosed|;
    assert s.events <= s0.events <= s1.events;
    assert log[k] == match m
      case Logging(_) => AccessLine(o.status, o.cause)
      case Telemetry(Tracing, _) => SpanDescribed(s.nextSpan, o.status, o.cause)
      case _ => Duration(o.status);
    forall other | ReportsSince(log, |s.events|, other, cause) ensures other == status {
      assert Agrees(log[k], other, cause) && Agrees(log[k], status, cause);
    }
  }

  /** The restriction is real: a 304 written between observer and finalizer reaches the client while
      the access line still says 200. */
  lemma StatusWrittenAboveIsNotReported(cfg: Config, s: State)
    requires cfg.outcome == Returned(None) && cfg.handlerStatus == 200
    ensures var notModified := App((out: Outcome, _: int) => (out, 304));
            var (r, out) := Dispatch([Logging(false), notModified, Finalizer], cfg, s);
            && out == Returned(None) && r.status == 304
            && r.events == s.events + [HandlerEntered, HandlerLeft, AccessLine(200, NoCause)]
  {
    var notModified := App((out: Outcome, _: int) => (out, 304));
    var stack := [Logging(false), notModified, Finalizer];
    assert stack[1..] == [notModified, Finalizer] && stack[1..][1..] == [Finalizer] && [Finalizer][1..] == [];
    var s0 := Before(Finalizer, cfg, s);
    assert Exec([], cfg, s0) == (Handler(cfg, s0), Returned(None));
    var s1 := Exec([Finalizer], cfg, s).0;
    assert s1.slots[|s1.slots|-1] == Slot(None, 200, true) && s1.events == s.events + [HandlerEntered, HandlerLeft];
    assert Exec(stack[1..], cfg, s) == (s1.(status := 304), Returned(None));
    assert [] + [AccessLine(200, NoCause)] == [AccessLine(200, NoCause)];
  }

  /** The ordering rule the middleware documents is needed: one middleware above the outermost observer
      that returns its own error makes the ErrorHandler run on a request that succeeded. */
  lemma RogueAboveTheObserversRendersAgain(cfg: Config, s: State, e: Err)
    requires cfg.outcome == Returned(None)
    ensures var rogue := App((_: Outcome, st: int) => (Returned(Some(e)), st));
            Tally(Dispatch([rogue, Logging(false), Finalizer], cfg, s).0.events, HandlerRunWeight)
            == Tally(s.events, HandlerRunWeight) + 1
  {
    var rogue := App((_: Outcome, st: int) => (Returned(Some(e)), st));
    var upper := [rogue, Logging(false)];
    assert upper + ([Finalizer] + []) == [rogue, Logging(false), Finalizer];
    ErrorHandlerRunsExactly(upper, [], cfg, s);
    assert Outer(upper, [], cfg).0 == Returned(Some(e));
  }

  // ---------------------------------------------------------------- what the ErrorHandler is handed

  /** A weight that sees only what a finalizer does about an error. */
  ghost predicate SeesFinalizers(w: Event -> int) {
    forall e: Event :: !e.ErrorHandlerRun? && !e.HandlerPanicReported? ==> w(e) == 0
  }

  lemma LayerAddsNothing(m: Middleware, cfg: Config, s0: State, s: State, out: Outcome, w: Event -> int)
    requires SeesFinalizers(w) && !m.Finalizer?
    ensures Opening(m, cfg, s0, w) == 0 && Closing(m, cfg, s0, s, out, w) == 0
  {
    var log := Observe(s, out).diagnosed;
    assert Tally(log, w) == 0 by {
      assert log == [] || (log[1..] == [] && w(log[0]) == 0);
    }
    hide Observe;
  }

  lemma {:induction false} NothingAdded(stack: seq<Middleware>, cfg: Config, s: State, w: Event -> int)
    requires SeesFinalizers(w) && HasNoFinalizer(stack)
    ensures Tally(Exec(stack, cfg, s).0.events, w) == Tally(s.events, w)
  {
    hide SeesFinalizers, Tally, Before, After, Opening, Closing;
    if stack == [] {
      TallyHandler(cfg, s, w);
      HandlerWeighsNothing(w);
    } else {
      var s0 := Before(stack[0], cfg, s);
      NothingAdded(stack[1..], cfg, s0, w);
      ExecStep(stack, cfg, s);
      var (s1, out) := Exec(stack[1..], cfg, s0);
      LayerExtends(stack[0], cfg, s, s1, out);
      TallyBefore(stack[0], cfg, s, w);
      TallyAfter(stack[0], cfg, s, s1, out, w);
      LayerAddsNothing(stack[0], cfg, s, s1, out, w);
    }
  }

  lemma HandlerWeighsNothing(w: Event -> int)
    requires SeesFinalizers(w)
    ensures w(HandlerEntered) == 0 && w(HandlerLeft) == 0
  {
  }

  lemma {:induction false} FinalizerAdds(upper: seq<Middleware>, lower: seq<Middleware>, cfg: Config, s: State, e: Err,
                                         w: Event -> int)
    requires SeesFinalizers(w) && HasNoFinalizer(upper) && HasNoFinalizer(lower)
    requires Inner(lower, cfg).0 == Returned(Some(e))
    ensures var handed := MakeSafe(Normalize(Some(e)).value);
            Tally(Exec(upper + ([Finalizer] + lower), cfg, s).0.events, w) ==
            Tally(s.events, w) + w(ErrorHandlerRun(handed))
            + (if cfg.errorHandler(handed, Inner(lower, cfg).1).Crashed? then w(HandlerPanicReported) else 0)
  {
    hide SeesFinalizers, Tally, Inner, MakeSafe, Normalize;
    var rest := [Finalizer] + lower;
    if upper == [] {
      assert upper + rest == rest && rest[1..] == lower;
      var s0 := Before(Finalizer, cfg, s);
      NothingAdded(lower, cfg, s0, w);
      BelowFinalizer(lower, cfg, s0);
      var (s1, out) := Exec(lower, cfg, s0);
      NormalizeTwice(e);
      TallyAfter(Finalizer, cfg, s, s1, out, w);
    } else {
      assert (upper + rest)[1..] == upper[1..] + rest;
      var s0 := Before(upper[0], cfg, s);
      FinalizerAdds(upper[1..], lower, cfg, s0, e, w);
      var (s1, out) := Exec(upper[1..] + rest, cfg, s0);
      TallyBefore(upper[0], cfg, s, w);
      TallyAfter(upper[0], cfg, s, s1, out, w);
      LayerAddsNothing(upper[0], cfg, s, s1, out, w);
    }
  }

  /** For every stack around one finalizer and every error that reaches it: the ErrorHandler is handed one
      error, which can be stringified and maps as the original does (it is the original when that is
      safe); and a panic of that handler is reported, once. */
  lemma FinalizerHandsASafeError(upper: seq<Middleware>, lower: seq<Middleware>, cfg: Config, s: State, e: Err)
    returns (handed: Err)
    requires HasNoFinalizer(upper) && HasNoFinalizer(lower) && Inner(lower, cfg).0 == Returned(Some(e))
    ensures var r := Exec(upper + ([Finalizer] + lower), cfg, s).0;
            && Tally(r.events, RunWeight(handed)) == Tally(s.events, RunWeight(handed)) + 1
            && (forall other :: other != handed ==>
                 Tally(r.events, RunWeight(other)) == Tally(s.events, RunWeight(other)))
            && Tally(r.events, PanicReportWeight) == Tally(s.events, PanicReportWeight)
               + (if cfg.errorHandler(handed, Inner(lower, cfg).1).Crashed? then 1 else 0)
    ensures IsSafeToStringify(handed) && (IsSafeToStringify(e) ==> handed == e)
    ensures !IsTypedNil(e) ==> StatusOf(handed) == StatusOf(e)
    ensures IsTypedNil(e) ==> handed == ERR_INTERNAL_SERVER_ERROR
  {
    hide Exec, Inner, Tally;
    handed := MakeSafe(Normalize(Some(e)).value);
    HandedErrorIsSafeAndKeepsItsStatus(e);
    AsFiberErrorIsFirstNonNilMatch(Some(e));
    FinalizerAdds(upper, lower, cfg, s, e, PanicReportWeight);
    forall other: Err {:trigger RunWeight(other)}
      ensures Tally(Exec(upper + ([Finalizer] + lower), cfg, s).0.events, RunWeight(other)) ==
              Tally(s.events, RunWeight(other)) + (if other == handed then 1 else 0)
    {
      FinalizerAdds(upper, lower, cfg, s, e, RunWeight(other));
    }
  }

  function RunWeight(handed: Err): Event -> int {
    (e: Event) => if e == ErrorHandlerRun(handed) then 1 else 0
  }

  function PanicReportWeight(e: Event): int {
    if e == HandlerPanicReported then 1 else 0
  }

  /** An error an observer keeps to itself because the response is decided is diagnosed. */
  lemma DiscardedErrorIsDiagnosed(stack: seq<Middleware>, cfg: Config, s: State, e: Err)
    requires stack != [] && IsObserver(stack[0])
    requires var (s1, out) := Exec(stack[1..], cfg, Before(stack[0], cfg, s));
             IsFinalized(s1) && out == Returned(Some(e))
    ensures var (r, out) := Exec(stack, cfg, s); out == Returned(None) && RogueDiscarded(e) in r.events
  {
    var (s1, out) := Exec(stack[1..], cfg, Before(stack[0], cfg, s));
    var o := Observe(s1, out);
    assert o.diagnosed == [RogueDiscarded(e)];
    var r := Exec(stack, cfg, s).0;
    assert r.events[|s1.events|] == RogueDiscarded(e);
  }

  // ---------------------------------------------------------------- Fiber's default ErrorHandler

  /** The handler an application gets when it configures none. */
  ghost predicate IsFiberDefault(errorHandler: (Err, int) -> Rendering) {
    forall e, st :: if DefaultHandlerPanics(e) then errorHandler(e, st).Crashed?
                    else errorHandler(e, st) == Rendered(DefaultHandlerStatus(e))
  }

  /** There is such a handler, whatever it panics with. */
  lemma SomeHandlerIsFiberDefault(boom: PanicValue)
    ensures IsFiberDefault((e: Err, st: int) =>
              if DefaultHandlerPanics(e) then Crashed(st, boom) else Rendered(DefaultHandlerStatus(e)))
  {
  }

  /** Behind the finalizer, the client gets the status an error maps to exactly when the error is not a
      stringifiable one shadowed by a typed nil, or maps to 500 anyway. */
  lemma DefaultHandlerKeepsMappedStatusIff(cfg: Config, raw: Err, status: int)
    requires IsFiberDefault(cfg.errorHandler)
    ensures var norm := Normalize(Some(raw)).value;
            DecidedStatus(cfg, Some(raw), status) == StatusOf(norm) <==>
            !(IsSafeToStringify(norm) && Shadowed(norm)) || StatusOf(norm) == INTERNAL_SERVER_ERROR
  {
    var norm := Normalize(Some(raw)).value;
    HandedErrorIsSafeAndKeepsItsStatus(raw);
    AsFiberErrorIsFirstNonNilMatch(Some(norm));
    DefaultHandlerPanicsIff(MakeSafe(norm));
  }

  /** So for every such stack whose middleware above the finalizer leave the status alone. */
  lemma ClientGetsMappedStatusIff(upper: seq<Middleware>, lower: seq<Middleware>, cfg: Config, s: State, raw: Err)
    requires upper != [] && IsObserver(upper[0]) && IsFiberDefault(cfg.errorHandler)
    requires forall m :: m in upper ==> Upper(m) && WritesNoStatus(m)
    requires forall m :: m in lower ==> !m.Finalizer? && !IsObserver(m)
    requires Inner(lower, cfg).0 == Returned(Some(raw))
    ensures var (r, out) := Dispatch(upper + ([Finalizer] + lower), cfg, s);
            var norm := Normalize(Some(raw)).value;
            && out == Returned(None)
            && (r.status == StatusOf(norm) <==>
                 !(IsSafeToStringify(norm) && Shadowed(norm)) || StatusOf(norm) == INTERNAL_SERVER_ERROR)
            && (r.status != StatusOf(norm) ==> r.status == INTERNAL_SERVER_ERROR)
  {
    hide Exec, Dispatch, Inner, Through, StatusOf, MakeSafe, Normalize, HandledStatus;
    ResponseIsRenderedOnceAndReportedAsSent(upper, lower, cfg, s, Some(raw));
    DefaultHandlerKeepsMappedStatusIff(cfg, raw, Inner(lower, cfg).1);
    DefaultHandlerRendersOr500(cfg, raw, Inner(lower, cfg).1);
  }

  lemma DefaultHandlerRendersOr500(cfg: Config, raw: Err, status: int)
    requires IsFiberDefault(cfg.errorHandler)
    ensures DecidedStatus(cfg, Some(raw), status) in {StatusOf(Normalize(Some(raw)).value), INTERNAL_SERVER_ERROR}
  {
    HandedErrorIsSafeAndKeepsItsStatus(raw);
    AsFiberErrorIsFirstNonNilMatch(Normalize(Some(raw)));
    DefaultHandlerPanicsIff(MakeSafe(Normalize(Some(raw)).value));
  }

  /** The repository's own promise for the default handler, with the input on which it fails: an error
      mapped to 400 but shadowed is served as a 500, and every observer reports that 500. */
  lemma ShadowedStatusIsLost(cfg: Config, s: State, f: FiberError)
    requires IsFiberDefault(cfg.errorHandler) && f.code != INTERNAL_SERVER_ERROR
    requires cfg.outcome == Returned(Some(ShadowedJoin(f)))
    ensures var (r, out) := Dispatch([Logging(false)] + ([Finalizer] + []), cfg, s);
            && StatusOf(ShadowedJoin(f)) == f.code
            && out == Returned(None) && r.status == INTERNAL_SERVER_ERROR
            && ReportsSince(r.events, |s.events|, INTERNAL_SERVER_ERROR, Because(ShadowedJoin(f)))
  {
    hide Exec, ShadowedJoin;
    var e := ShadowedJoin(f);
    ShadowedJoinPanicsTheDefaultHandler(f);
    DefaultHandlerKeepsMappedStatusIff(cfg, e, cfg.handlerStatus);
    assert Inner([], cfg) == (Returned(Some(e)), cfg.handlerStatus);
    ResponseIsRenderedOnceAndReportedAsSent([Logging(false)], [], cfg, s, Some(e));
  }

  // ---------------------------------------------------------------- no finalizer

  /** The status an observer predicts when nothing below it has rendered the error. */
  function PredictedStatus(raw: Option<Err>, status: int): int {
    if raw.None? then status else StatusOf(Normalize(raw).value)
  }

  predicate PlainObserver(m: Middleware) {
    m.Logging? || m.Telemetry? || m.EndSpans?
  }

  /** Without a finalizer the handler's error passes every observer normalized and unrendered, and each
      reports the status the error maps to and that very error. */
  lemma {:induction false} ObserversPredict(stack: seq<Middleware>, cfg: Config, s: State, n: nat)
    requires forall m :: m in stack ==> PlainObserver(m)
    requires cfg.outcome.Returned? && s.slots == []
    requires n <= |s.events|
    requires ReportsSince(s.events, n, PredictedStatus(cfg.outcome.err, cfg.handlerStatus),
                          CauseOf(Normalize(cfg.outcome.err)))
    ensures var (r, out) := Exec(stack, cfg, s);
            var raw := cfg.outcome.err;
            && out.Returned? && Normalize(out.err) == Normalize(raw) && r.slots == [] && r.status == cfg.handlerStatus
            && (stack != [] ==> out.err == Normalize(raw))
            && ReportsSince(r.events, n, PredictedStatus(raw, cfg.handlerStatus), CauseOf(Normalize(raw)))
  {
    if stack != [] {
      var status, cause := PredictedStatus(cfg.outcome.err, cfg.handlerStatus), CauseOf(Normalize(cfg.outcome.err));
      var s0 := Before(stack[0], cfg, s);
      ReportsBefore(stack[0], cfg, s, n, status, cause);
      assert PlainObserver(stack[0]);
      ObserversPredict(stack[1..], cfg, s0, n);
      var (s1, out) := Exec(stack[1..], cfg, s0);
      assert Observe(s1, out).status == status && Observe(s1, out).cause == cause;
      ReportsAfter(stack[0], cfg, s, s1, out, n, status, cause);
    }
  }

  /** Whatever the ErrorHandler, every observer reports the prediction; Fiber's dispatch then sends it if
      and only if that handler answers the normalized error with the status it maps to. */
  lemma PredictionIsWhatIsSent(stack: seq<Middleware>, cfg: Config, s: State)
    requires stack != [] && forall m :: m in stack ==> PlainObserver(m)
    requires cfg.outcome.Returned? && s.slots == []
    ensures var (r, out) := Dispatch(stack, cfg, s);
            var raw, norm := cfg.outcome.err, Normalize(cfg.outcome.err);
            && ReportsSince(r.events, |s.events|, PredictedStatus(raw, cfg.handlerStatus), CauseOf(norm))
            && (out.Panicked? <==> norm.Some? && cfg.errorHandler(norm.value, cfg.handlerStatus).Crashed?)
            && (out == Returned(None) && r.status == PredictedStatus(raw, cfg.handlerStatus) <==>
                 norm.None?
                 || (!out.Panicked? && HandledStatus(cfg, norm.value, cfg.handlerStatus) == StatusOf(norm.value)))
  {
    hide Exec, Agrees, StatusOf, ReportsSince;
    ObserversPredict(stack, cfg, s, |s.events|);
    var (r, out) := Exec(stack, cfg, s);
    var status, cause := PredictedStatus(cfg.outcome.err, cfg.handlerStatus), CauseOf(Normalize(cfg.outcome.err));
    if out.err.Some? {
      DispatchIsNoReport(out.err.value, status, cause);
      ReportsExtend(r.events, [ErrorHandlerRun(out.err.value)], |s.events|, status, cause);
    }
  }

  lemma DispatchIsNoReport(e: Err, status: int, cause: Cause)
    ensures ReportsSince([ErrorHandlerRun(e)], 0, status, cause)
  {
  }

  /** With Fiber's default handler and no finalizer, what the observers report is what the client gets
      exactly when the error, if any, can be stringified and is not shadowed; any other panics out of
      Fiber's dispatch, above every middleware. */
  lemma DefaultHandlerSendsPredictionIff(stack: seq<Middleware>, cfg: Config, s: State)
    requires stack != [] && forall m :: m in stack ==> PlainObserver(m)
    requires cfg.outcome.Returned? && s.slots == [] && IsFiberDefault(cfg.errorHandler)
    ensures var (r, out) := Dispatch(stack, cfg, s);
            var raw, norm := cfg.outcome.err, Normalize(cfg.outcome.err);
            var served := norm.None? || (IsSafeToStringify(norm.value) && !Shadowed(norm.value));
            && (out == Returned(None) && ReportsSince(r.events, |s.events|, r.status, CauseOf(norm)) <==> served)
            && (!served ==> out.Panicked?)
  {
    hide Exec, Agrees, StatusOf, Dispatch;
    PredictionIsWhatIsSent(stack, cfg, s);
    var norm := Normalize(cfg.outcome.err);
    if norm.Some? {
      DefaultHandlerPanicsIff(norm.value);
    }
  }

  // ---------------------------------------------------------------- a panic recovered

  /** A recover middleware: it turns a panic into the error the value is or prints as. */
  function Recover(toErr: PanicValue -> Err): Middleware {
    App((out: Outcome, st: int) => (match out case Panicked(v) => Returned(Some(toErr(v))) case Returned(_) => out, st))
  }

  /** Whether the ErrorHandler answers an error with a status. */
  predicate Answers(cfg: Config, e: Err, status: int, answer: int) {
    !cfg.errorHandler(e, status).Crashed? && HandledStatus(cfg, e, status) == answer
  }

  lemma ReportsThroughDispatch(stack: seq<Middleware>, cfg: Config, s: State, n: nat, status: int, cause: Cause)
    requires n <= |Exec(stack, cfg, s).0.events| && ReportsSince(Exec(stack, cfg, s).0.events, n, status, cause)
    ensures ReportsSince(Dispatch(stack, cfg, s).0.events, n, status, cause)
    ensures var (r, out), (r', out') := Exec(stack, cfg, s), Dispatch(stack, cfg, s);
            out.Returned? && out.err.Some? ==>
              forall answer ::
                out' == Returned(None) && r'.status == answer <==> Answers(cfg, out.err.value, r.status, answer)
  {
    hide Exec, Agrees, ReportsSince;
    var (r, out) := Exec(stack, cfg, s);
    if out.Returned? && out.err.Some? {
      DispatchIsNoReport(out.err.value, status, cause);
      ReportsExtend(r.events, [ErrorHandlerRun(out.err.value)], n, status, cause);
    }
  }

  /** Recovered above every observer: they all report a 500, and that is what the client gets if and only
      if the ErrorHandler answers the recovered error with one. */
  lemma RecoveredAboveObservers(stack: seq<Middleware>, cfg: Config, s: State, toErr: PanicValue -> Err)
    requires cfg.outcome.Panicked? && forall m :: m in stack ==> PassesPanics(m)
    ensures var (r, out) := Dispatch([Recover(toErr)] + stack, cfg, s);
            var v := cfg.outcome.value;
            && ReportsSince(r.events, |s.events|, INTERNAL_SERVER_ERROR, BecausePanic(v))
            && (out == Returned(None) && r.status == INTERNAL_SERVER_ERROR <==>
                 Answers(cfg, toErr(v), Exec(stack, cfg, s).0.status, INTERNAL_SERVER_ERROR))
  {
    hide Dispatch, Answers, ReportsSince;
    var v := cfg.outcome.value;
    var whole := [Recover(toErr)] + stack;
    assert whole[1..] == stack;
    assert ReportsSince(s.events, |s.events|, INTERNAL_SERVER_ERROR, BecausePanic(v)) by {
      NothingReportedYet(s, INTERNAL_SERVER_ERROR, BecausePanic(v));
    }
    PanicLeavesUnchanged(stack, cfg, s, |s.events|);
    var s1 := Exec(stack, cfg, s).0;
    assert Exec(whole, cfg, s) == (s1.(status := s1.status), Returned(Some(toErr(v))));
    ReportsThroughDispatch(whole, cfg, s, |s.events|, INTERNAL_SERVER_ERROR, BecausePanic(v));
  }

  lemma NothingReportedYet(s: State, status: int, cause: Cause)
    ensures ReportsSince(s.events, |s.events|, status, cause)
  {
  }

  /** The input: Fiber's default handler, and a panic recovered as an error that maps to another status.
      The access line says 500 and the client gets the other. */
  lemma RecoveredStatusIsNotReported(cfg: Config, s: State, toErr: PanicValue -> Err, f: FiberError)
    requires cfg.outcome.Panicked? && toErr(cfg.outcome.value) == Fiber(f) && f.code != INTERNAL_SERVER_ERROR
    requires IsFiberDefault(cfg.errorHandler)
    ensures var (r, out) := Dispatch([Recover(toErr)] + [Logging(false)], cfg, s);
            && out == Returned(None) && r.status == f.code
            && ReportsSince(r.events, |s.events|, INTERNAL_SERVER_ERROR, BecausePanic(cfg.outcome.value))
            && !ReportsSince(r.events, |s.events|, r.status, BecausePanic(cfg.outcome.value))
  {
    hide ReportsSince, Answers;
    var v := cfg.outcome.value;
    var whole := [Recover(toErr)] + [Logging(false)];
    RecoveredAboveObservers([Logging(false)], cfg, s, toErr);
    assert whole[1..] == [Logging(false)];
    var (r, out) := Exec([Logging(false)], cfg, s);
    NothingReportedYet(s, INTERNAL_SERVER_ERROR, BecausePanic(v));
    PanicLeavesUnchanged([Logging(false)], cfg, s, |s.events|);
    assert Exec(whole, cfg, s) == (r, Returned(Some(Fiber(f))));
    assert Dispatch(whole, cfg, s).0.events == r.events + [ErrorHandlerRun(Fiber(f))];
    OutermostReports([Logging(false)], cfg, s, INTERNAL_SERVER_ERROR, BecausePanic(v));
    if ReportsSince(r.events + [ErrorHandlerRun(Fiber(f))], |s.events|, f.code, BecausePanic(v)) {
      ReportsOfPrefix(r.events, ErrorHandlerRun(Fiber(f)), |s.events|, f.code, BecausePanic(v));
    }
  }

  lemma ReportsOfPrefix(log: seq<Event>, e: Event, n: nat, status: int, cause: Cause)
    requires ReportsSince(log + [e], n, status, cause)
    ensures ReportsSince(log, n, status, cause)
  {
    hide Agrees;
    assert forall k :: 0 <= k < |log| ==> (log + [e])[k] == log[k];
  }

  /** A panic recovered between the observers and the finalizer below them: each observer reports the
      status the recovered error maps to, and that error. */
  lemma {:induction false} ObserversPredictRecovered(upper: seq<Middleware>, lower: seq<Middleware>, cfg: Config,
                                                     s: State, toErr: PanicValue -> Err, n: nat)
    requires forall m :: m in upper ==> PlainObserver(m)
    requires forall m :: m in lower ==> !m.Finalizer? && !IsObserver(m)
    requires Inner(lower, cfg).0.Panicked? && n <= |s.events|
    requires var norm := Normalize(Some(toErr(Inner(lower, cfg).0.value)));
             ReportsSince(s.events, n, StatusOf(norm.value), CauseOf(norm))
    ensures var (r, out) := Exec(upper + ([Recover(toErr)] + ([Finalizer] + lower)), cfg, s);
            var e := toErr(Inner(lower, cfg).0.value);
            var norm := Normalize(Some(e));
            && out == Returned(if upper == [] then Some(e) else norm)
            && r.status == Inner(lower, cfg).1 && r.slots != [] && !IsFinalized(r)
            && ReportsSince(r.events, n, StatusOf(norm.value), CauseOf(norm))
  {
    hide Inner, StatusOf, ReportsSince, Normalize, Exec, After;
    NormalizeTwice(toErr(Inner(lower, cfg).0.value));
    var rest := [Recover(toErr)] + ([Finalizer] + lower);
    if upper == [] {
      assert upper + rest == rest;
      RecoverPredicts(lower, cfg, s, toErr, n);
    } else {
      assert (upper + rest)[1..] == upper[1..] + rest && PlainObserver(upper[0]);
      var s0 := Before(upper[0], cfg, s);
      var norm := Normalize(Some(toErr(Inner(lower, cfg).0.value)));
      ReportsBefore(upper[0], cfg, s, n, StatusOf(norm.value), CauseOf(norm));
      ObserversPredictRecovered(upper[1..], lower, cfg, s0, toErr, n);
      var (s1, out) := Exec(upper[1..] + rest, cfg, s0);
      ExecStep(upper + rest, cfg, s);
      LayerPredicts(upper[0], cfg, s, s1, out, n);
    }
  }

  lemma ExecStep(stack: seq<Middleware>, cfg: Config, s: State)
    requires stack != []
    ensures var (s1, out) := Exec(stack[1..], cfg, Before(stack[0], cfg, s));
            |s1.slots| >= |Before(stack[0], cfg, s).slots| && Exec(stack, cfg, s) == After(stack[0], cfg, s, s1, out)
  {
  }

  lemma NormalizeTwice(e: Err)
    ensures Normalize(Some(e)).Some? && Normalize(Normalize(Some(e))) == Normalize(Some(e))
  {
  }

  /** An observer above an error that nothing rendered predicts its status and passes it on. */
  lemma LayerPredicts(m: Middleware, cfg: Config, s0: State, s: State, out: Outcome, n: nat)
    requires PlainObserver(m) && |s.slots| >= |s0.slots| && !IsFinalized(s) && out.Returned? && out.err.Some?
    requires var norm := Normalize(out.err);
             n <= |s.events| && norm.Some? && ReportsSince(s.events, n, StatusOf(norm.value), CauseOf(norm))
    ensures var (r, out') := After(m, cfg, s0, s, out);
            var norm := Normalize(out.err);
            && out' == Returned(norm) && r.status == s.status && r.slots == s.slots
            && ReportsSince(r.events, n, StatusOf(norm.value), CauseOf(norm))
  {
    var norm := Normalize(out.err);
    hide StatusOf, ReportsSince, Normalize;
    LayerThrough(m, cfg, s0, s, out);
    ReportsAfter(m, cfg, s0, s, out, n, StatusOf(norm.value), CauseOf(norm));
  }

  lemma RecoverPredicts(lower: seq<Middleware>, cfg: Config, s: State, toErr: PanicValue -> Err, n: nat)
    requires forall m :: m in lower ==> !m.Finalizer? && !IsObserver(m)
    requires Inner(lower, cfg).0.Panicked? && n <= |s.events|
    requires var norm := Normalize(Some(toErr(Inner(lower, cfg).0.value)));
             ReportsSince(s.events, n, StatusOf(norm.value), CauseOf(norm))
    ensures var (r, out) := Exec([Recover(toErr)] + ([Finalizer] + lower), cfg, s);
            var e := toErr(Inner(lower, cfg).0.value);
            var norm := Normalize(Some(e));
            && out == Returned(Some(e)) && r.status == Inner(lower, cfg).1 && r.slots != [] && !IsFinalized(r)
            && ReportsSince(r.events, n, StatusOf(norm.value), CauseOf(norm))
  {
    hide Inner, StatusOf, ReportsSince, Normalize;
    NormalizeTwice(toErr(Inner(lower, cfg).0.value));
    var norm := Normalize(Some(toErr(Inner(lower, cfg).0.value)));
    var tail := [Finalizer] + lower;
    assert ([Recover(toErr)] + tail)[1..] == tail && tail[1..] == lower;
    var s0 := Before(Finalizer, cfg, s);
    NoReportsBelow(lower, cfg, s0, n, StatusOf(norm.value), CauseOf(norm));
    FinalizerDecides(lower, cfg, s);
    BelowFinalizer(lower, cfg, s0);
  }

  /** That status is the client's if and only if the ErrorHandler, which Fiber runs unguarded since
      nothing was finalized, answers the recovered error with it. */
  lemma RecoveredBelowObservers(upper: seq<Middleware>, lower: seq<Middleware>, cfg: Config, s: State,
                                toErr: PanicValue -> Err)
    requires upper != [] && forall m :: m in upper ==> PlainObserver(m)
    requires forall m :: m in lower ==> !m.Finalizer? && !IsObserver(m)
    requires Inner(lower, cfg).0.Panicked?
    ensures var (r, out) := Dispatch(upper + ([Recover(toErr)] + ([Finalizer] + lower)), cfg, s);
            var norm := Normalize(Some(toErr(Inner(lower, cfg).0.value))).value;
            && ReportsSince(r.events, |s.events|, StatusOf(norm), Because(norm))
            && (out == Returned(None) && r.status == StatusOf(norm) <==>
                 Answers(cfg, norm, Inner(lower, cfg).1, StatusOf(norm)))
  {
    hide Inner, StatusOf, ReportsSince, Dispatch, Answers, Exec;
    var norm := Normalize(Some(toErr(Inner(lower, cfg).0.value))).value;
    NothingReportedYet(s, StatusOf(norm), Because(norm));
    ObserversPredictRecovered(upper, lower, cfg, s, toErr, |s.events|);
    var stack := upper + ([Recover(toErr)] + ([Finalizer] + lower));
    ReportsThroughDispatch(stack, cfg, s, |s.events|, StatusOf(norm), Because(norm));
  }
}
