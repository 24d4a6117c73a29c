/** The in-flight gauge of `trackActiveRequest`, shared by any number of concurrent requests whose
    chains interleave event by event. */
module ActiveRequests {
  import opened HttpChain
  import opened HttpChainTheorems

  // ---------------------------------------------------------------- one request

  function Meterings(stack: seq<Middleware>): nat {
    if stack == [] then 0
    else (if Metering(stack[0]) then 1 else 0) + Meterings(stack[1..])
  }

  /** From index `n` on, the log counts in once at `i`, out once later at `j`, both for `verb`, and
      touches the gauge nowhere else. */
  predicate CountedInThenOut(log: seq<Event>, n: nat, verb: string, i: nat, j: nat) {
    && n <= i < j < |log| && log[i] == Active(verb, 1) && log[j] == Active(verb, -1)
    && forall k :: n <= k < |log| && log[k].Active? ==> k == i || k == j
  }

  predicate NeverCounts(log: seq<Event>, n: nat) {
    forall k :: n <= k < |log| ==> !log[k].Active?
  }

  /** From index `n` on, the handler is entered at `h`, left next, and not entered or left again. */
  predicate HandledAt(log: seq<Event>, n: nat, h: nat) {
    && n <= h < |log| - 1 && log[h] == HandlerEntered && log[h+1] == HandlerLeft
    && forall k :: n <= k < |log| && IsHandlerEvent(log[k]) ==> k == h || k == h + 1
  }

  predicate IsHandlerEvent(e: Event) {
    e == HandlerEntered || e == HandlerLeft
  }

  /** From index `n` on, neither the gauge nor the handler is touched. */
  predicate Quiet(log: seq<Event>, n: nat) {
    forall k :: n <= k < |log| ==> !log[k].Active? && !IsHandlerEvent(log[k])
  }

  predicate Metering(m: Middleware) {
    m.Telemetry? && m.mode != Off && m.metered
  }

  /** A metering middleware's last event is the count-out; no other middleware touches the gauge, and
      none the handler. */
  lemma AfterCountsOut(m: Middleware, cfg: Config, s0: State, s: State, out: Outcome)
    requires |s.slots| >= |s0.slots| + (if m.Finalizer? then 1 else 0)
    ensures var r := After(m, cfg, s0, s, out).0;
            && s.events <= r.events
            && (!Metering(m) ==> Quiet(r.events, |s.events|))
            && (Metering(m) ==> |r.events| > |s.events| && r.events[|r.events|-1] == Active(cfg.verb, -1)
                                && Quiet(r.events[..|r.events|-1], |s.events|))
  {
    if Metering(m) {
      AfterMetering(m.mode, cfg, s0, s, out);
    } else if m.Telemetry? {
      AfterUnmetered(m.mode, cfg, s0, s, out);
    }
  }

  lemma AfterUnmetered(mode: TelemetryMode, cfg: Config, s0: State, s: State, out: Outcome)
    requires |s.slots| >= |s0.slots|
    ensures Quiet(After(Telemetry(mode, false), cfg, s0, s, out).0.events, |s.events|)
  {
  }

  lemma EndsWith(front: seq<Event>, body: seq<Event>, last: Event)
    ensures var log := front + (body + [last]);
            log[|log|-1] == last && log[..|log|-1] == front + body && front <= log
  {
  }

  lemma AfterMetering(mode: TelemetryMode, cfg: Config, s0: State, s: State, out: Outcome)
    requires mode != Off && |s.slots| >= |s0.slots|
    ensures var r := After(Telemetry(mode, true), cfg, s0, s, out).0;
            && s.events <= r.events && |r.events| > |s.events| && r.events[|r.events|-1] == Active(cfg.verb, -1)
            && Quiet(r.events[..|r.events|-1], |s.events|)
  {
    var o := Observe(s, out);
    var body := o.diagnosed
                + When(mode == Tracing, SpanDescribed(s0.nextSpan, o.status, o.cause))
                + When(true, Duration(o.status))
                + When(mode == Tracing, SpanEnd(s0.nextSpan));
    assert forall k :: 0 <= k < |body| ==> !body[k].Active? && !IsHandlerEvent(body[k]);
    hide Observe;
    var last := Active(cfg.verb, -1);
    var r := After(Telemetry(mode, true), cfg, s0, s, out).0;
    assert r.events == s.events + (body + When(true, last));
    assert When(true, last) == [last];
    EndsWith(s.events, body, last);
  }

  lemma BeforeCountsIn(m: Middleware, cfg: Config, s: State)
    ensures var s0, n := Before(m, cfg, s), |s.events|;
            && s.events <= s0.events && |s0.slots| == |s.slots| + (if m.Finalizer? then 1 else 0)
            && (!Metering(m) ==> Quiet(s0.events, n))
            && (Metering(m) ==> |s0.events| > n && s0.events[n] == Active(cfg.verb, 1) && Quiet(s0.events, n + 1))
  {
  }

  lemma HandledAtOnce(s: State, cfg: Config)
    ensures HandledAt(Handler(cfg, s).events, |s.events|, |s.events|) && NeverCounts(Handler(cfg, s).events, |s.events|)
  {
  }

  /** A layer that adds only quiet events, before and after, moves nothing. */
  lemma QuietAround(log0: seq<Event>, log1: seq<Event>, log2: seq<Event>, n: nat, h: nat)
    requires n <= |log0| && log0 <= log1 <= log2 && Quiet(log0, n) && Quiet(log2, |log1|)
    requires HandledAt(log1, |log0|, h)
    ensures HandledAt(log2, n, h)
    ensures NeverCounts(log1, |log0|) ==> NeverCounts(log2, n)
    ensures forall verb, i, j :: CountedInThenOut(log1, |log0|, verb, i, j) ==> CountedInThenOut(log2, n, verb, i, j)
  {
  }

  /** A metering layer brackets what is below it. */
  lemma MeteredAround(log0: seq<Event>, log1: seq<Event>, log2: seq<Event>, n: nat, verb: string, h: nat)
    requires n < |log0| && log0 <= log1 <= log2 && |log1| < |log2|
    requires log0[n] == Active(verb, 1) && Quiet(log0, n + 1)
    requires HandledAt(log1, |log0|, h) && NeverCounts(log1, |log0|)
    requires log2[|log2|-1] == Active(verb, -1) && Quiet(log2[..|log2|-1], |log1|)
    ensures CountedInThenOut(log2, n, verb, n, |log2| - 1) && HandledAt(log2, n, h) && n < h && h + 1 < |log2| - 1
  {
    var front := log2[..|log2|-1];
    assert forall k :: 0 <= k < |front| ==> front[k] == log2[k];
  }

  /** Without a metering middleware the gauge is not touched; the handler is run once all the same. */
  lemma {:induction false} UnmeteredChainNeverCounts(stack: seq<Middleware>, cfg: Config, s: State) returns (h: nat)
    requires Meterings(stack) == 0
    ensures NeverCounts(Exec(stack, cfg, s).0.events, |s.events|)
    ensures HandledAt(Exec(stack, cfg, s).0.events, |s.events|, h)
  {
    if stack == [] {
      h := |s.events|;
      HandledAtOnce(s, cfg);
    } else {
      hide NeverCounts, Quiet, HandledAt, CountedInThenOut, Before, After;
      var s0 := Before(stack[0], cfg, s);
      BeforeCountsIn(stack[0], cfg, s);
      h := UnmeteredChainNeverCounts(stack[1..], cfg, s0);
      var (s1, out) := Exec(stack[1..], cfg, s0);
      AfterCountsOut(stack[0], cfg, s, s1, out);
      QuietAround(s0.events, s1.events, Exec(stack, cfg, s).0.events, |s.events|, h);
    }
  }

  /** Whatever the handler does, a panic included, a chain with one metering telemetry middleware counts
      its request in before the handler is entered and out after it was left, exactly once each. */
  lemma {:induction false} ChainCountsInThenOut(stack: seq<Middleware>, cfg: Config, s: State)
    returns (i: nat, h: nat, j: nat)
    requires Meterings(stack) == 1
    ensures var log := Exec(stack, cfg, s).0.events;
            CountedInThenOut(log, |s.events|, cfg.verb, i, j) && HandledAt(log, |s.events|, h) && i < h && h + 1 < j
  {
    hide NeverCounts, Quiet, HandledAt, CountedInThenOut, Before, After;
    var m := stack[0];
    var s0 := Before(m, cfg, s);
    var (s1, out) := Exec(stack[1..], cfg, s0);
    var r := Exec(stack, cfg, s).0;
    BeforeCountsIn(m, cfg, s);
    AfterCountsOut(m, cfg, s, s1, out);
    if Metering(m) {
      h := UnmeteredChainNeverCounts(stack[1..], cfg, s0);
      i, j := |s.events|, |r.events| - 1;
      MeteredAround(s0.events, s1.events, r.events, |s.events|, cfg.verb, h);
    } else {
      i, h, j := ChainCountsInThenOut(stack[1..], cfg, s0);
      QuietAround(s0.events, s1.events, r.events, |s.events|, h);
    }
  }

  // ---------------------------------------------------------------- many requests

  /** Requests in progress: each will emit its log in order and has emitted `done` events so far. */
  datatype System = System(logs: seq<seq<Event>>, done: seq<nat>, gauge: map<string, int>)

  predicate Consistent(sys: System) {
    |sys.logs| == |sys.done| && forall i :: 0 <= i < |sys.logs| ==> sys.done[i] <= |sys.logs[i]|
  }

  function Read(gauge: map<string, int>, verb: string): int {
    if verb in gauge then gauge[verb] else 0
  }

  /** Request `i` emits its next event; the counter addition is one atomic step. */
  function Advance(sys: System, i: nat): System
    requires Consistent(sys)
    ensures Consistent(Advance(sys, i))
  {
    if i >= |sys.logs| || sys.done[i] == |sys.logs[i]| then sys
    else
      var e := sys.logs[i][sys.done[i]];
      var gauge := if e.Active? then sys.gauge[e.verb := Read(sys.gauge, e.verb) + e.delta] else sys.gauge;
      System(sys.logs, sys.done[i := sys.done[i] + 1], gauge)
  }

  function Schedule(sys: System, picks: seq<nat>): System
    requires Consistent(sys)
    ensures Consistent(Schedule(sys, picks)) && Schedule(sys, picks).logs == sys.logs
    decreases |picks|
  {
    if picks == [] then sys else Schedule(Advance(sys, picks[0]), picks[1..])
  }

  /** In flight for `verb`: counted in, and not yet counted out. */
  predicate InFlight(log: seq<Event>, done: nat, verb: string)
    requires done <= |log|
  {
    (exists k :: 0 <= k < done && log[k] == Active(verb, 1))
        && (forall k :: 0 <= k < done ==> log[k] != Active(verb, -1))
  }

  function Counted(log: seq<Event>, done: nat, verb: string): nat
    requires done <= |log|
  {
    if InFlight(log, done, verb) then 1 else 0
  }

  function InFlightCount(sys: System, verb: string, n: nat): nat
    requires Consistent(sys) && n <= |sys.logs|
  {
    if n == 0 then 0
    else InFlightCount(sys, verb, n - 1) + Counted(sys.logs[n-1], sys.done[n-1], verb)
  }

  /** Where a request's log counts in, enters the handler and counts out, and for which method. */
  datatype Bounds = Bounds(verb: string, i: nat, h: nat, j: nat)

  predicate Brackets(log: seq<Event>, b: Bounds) {
    CountedInThenOut(log, 0, b.verb, b.i, b.j) && HandledAt(log, 0, b.h) && b.i < b.h && b.h + 1 < b.j
  }

  predicate AllCountInThenOut(sys: System, bounds: seq<Bounds>) {
    |bounds| == |sys.logs| && forall i :: 0 <= i < |sys.logs| ==> Brackets(sys.logs[i], bounds[i])
  }

  lemma InFlightIsBetween(log: seq<Event>, done: nat, own: string, i: nat, j: nat, verb: string)
    requires done <= |log| && CountedInThenOut(log, 0, own, i, j)
    ensures InFlight(log, done, verb) <==> verb == own && i < done <= j
  {
    if verb == own && i < done <= j {
      assert log[i] == Active(verb, 1);
    }
  }

  lemma StepOfOne(log: seq<Event>, done: nat, b: Bounds, verb: string)
    requires Brackets(log, b) && done < |log|
    ensures var e := log[done];
            Counted(log, done + 1, verb) ==
            Counted(log, done, verb) + (if e.Active? && e.verb == verb then e.delta else 0)
  {
    hide HandledAt, InFlight;
    InFlightIsBetween(log, done, b.verb, b.i, b.j, verb);
    InFlightIsBetween(log, done + 1, b.verb, b.i, b.j, verb);
  }

  /** One step changes the number of requests in flight by what it adds to the gauge. */
  lemma {:induction false} StepChangesCount(sys: System, bounds: seq<Bounds>, i: nat, verb: string, n: nat)
    requires Consistent(sys) && AllCountInThenOut(sys, bounds)
    requires i < |sys.logs| && sys.done[i] < |sys.logs[i]| && n <= |sys.logs|
    ensures var e := sys.logs[i][sys.done[i]];
            InFlightCount(Advance(sys, i), verb, n) ==
            InFlightCount(sys, verb, n) + (if i < n && e.Active? && e.verb == verb then e.delta else 0)
  {
    hide Brackets, Counted;
    if n > 0 {
      StepChangesCount(sys, bounds, i, verb, n - 1);
      if i == n - 1 {
        StepOfOne(sys.logs[i], sys.done[i], bounds[i], verb);
      }
    }
  }

  ghost predicate GaugeIsInFlight(sys: System)
    requires Consistent(sys)
  {
    forall v :: Read(sys.gauge, v) == InFlightCount(sys, v, |sys.logs|)
  }

  lemma StepKeepsGauge(sys: System, bounds: seq<Bounds>, i: nat)
    requires Consistent(sys) && AllCountInThenOut(sys, bounds) && GaugeIsInFlight(sys)
    ensures GaugeIsInFlight(Advance(sys, i))
  {
    hide InFlightCount, Brackets;
    if i < |sys.logs| && sys.done[i] < |sys.logs[i]| {
      forall v: string ensures Read(Advance(sys, i).gauge, v) == InFlightCount(Advance(sys, i), v, |sys.logs|) {
        StepChangesCount(sys, bounds, i, v, |sys.logs|);
      }
    }
  }

  /** Under every schedule the gauge of a method stays equal to the number of requests in flight for it. */
  lemma {:induction false} GaugeEqualsRequestsInFlight(sys: System, bounds: seq<Bounds>, picks: seq<nat>)
    requires Consistent(sys) && AllCountInThenOut(sys, bounds) && GaugeIsInFlight(sys)
    ensures GaugeIsInFlight(Schedule(sys, picks))
    decreases |picks|
  {
    hide GaugeIsInFlight, Brackets, InFlightCount, Read;
    if picks != [] {
      StepKeepsGauge(sys, bounds, picks[0]);
      GaugeEqualsRequestsInFlight(Advance(sys, picks[0]), bounds, picks[1..]);
    }
  }

  lemma {:induction false} NothingInFlightAtStart(sys: System, verb: string, n: nat)
    requires Consistent(sys) && n <= |sys.logs| && forall i :: 0 <= i < |sys.logs| ==> sys.done[i] == 0
    ensures InFlightCount(sys, verb, n) == 0
  {
    if n > 0 {
      NothingInFlightAtStart(sys, verb, n - 1);
    }
  }

  /** The handler has been entered and not been left. */
  predicate Running(log: seq<Event>, done: nat)
    requires done <= |log|
  {
    (exists k :: 0 <= k < done && log[k] == HandlerEntered) && (forall k :: 0 <= k < done ==> log[k] != HandlerLeft)
  }

  /** Something has happened to the request, and something is still to happen. */
  predicate Unfinished(log: seq<Event>, done: nat) {
    0 < done < |log|
  }

  function RunningCount(sys: System, verbs: seq<string>, verb: string, n: nat): nat
    requires Consistent(sys) && n <= |sys.logs| == |verbs|
  {
    if n == 0 then 0
    else
      RunningCount(sys, verbs, verb, n - 1) +
      (if verbs[n-1] == verb && Running(sys.logs[n-1], sys.done[n-1]) then 1 else 0)
  }

  function UnfinishedCount(sys: System, verbs: seq<string>, verb: string, n: nat): nat
    requires Consistent(sys) && n <= |sys.logs| == |verbs|
  {
    if n == 0 then 0
    else
      UnfinishedCount(sys, verbs, verb, n - 1) +
      (if verbs[n-1] == verb && Unfinished(sys.logs[n-1], sys.done[n-1]) then 1 else 0)
  }

  lemma RunningIsInFlight(log: seq<Event>, done: nat, b: Bounds)
    requires done <= |log| && Brackets(log, b)
    ensures Running(log, done) ==> InFlight(log, done, b.verb)
    ensures InFlight(log, done, b.verb) ==> Unfinished(log, done)
    ensures forall verb :: InFlight(log, done, verb) ==> verb == b.verb
  {
    if Running(log, done) {
      assert log[b.h + 1] == HandlerLeft;
      assert log[b.i] == Active(b.verb, 1);
    }
    if InFlight(log, done, b.verb) {
      assert log[b.j] == Active(b.verb, -1);
    }
  }

  lemma {:induction false} InFlightIsBracketed(sys: System, bounds: seq<Bounds>, verbs: seq<string>,
                                               verb: string, n: nat)
    requires Consistent(sys) && AllCountInThenOut(sys, bounds) && n <= |sys.logs| == |verbs|
    requires forall i :: 0 <= i < |verbs| ==> verbs[i] == bounds[i].verb
    ensures RunningCount(sys, verbs, verb, n) <= InFlightCount(sys, verb, n) <= UnfinishedCount(sys, verbs, verb, n)
  {
    if n > 0 {
      InFlightIsBracketed(sys, bounds, verbs, verb, n - 1);
      assert Brackets(sys.logs[n-1], bounds[n-1]);
      hide Brackets, Running, Unfinished, InFlight;
      RunningIsInFlight(sys.logs[n-1], sys.done[n-1], bounds[n-1]);
    }
  }

  /** Any number of requests, each through any stack with one metering telemetry middleware and with
      any handler outcome, interleaved in any way: at every moment the gauge is the number counted in and
      not out, which lies between the requests whose handler is running and those begun and not over. */
  lemma GaugeUnderAnyInterleaving(stacks: seq<seq<Middleware>>, cfgs: seq<Config>, starts: seq<State>,
                                  logs: seq<seq<Event>>, verbs: seq<string>, picks: seq<nat>)
    requires |stacks| == |cfgs| == |starts| == |logs| == |verbs|
    requires forall i :: 0 <= i < |stacks| ==> Meterings(stacks[i]) == 1 && starts[i].events == []
    requires forall i :: 0 <= i < |stacks| ==> logs[i] == Exec(stacks[i], cfgs[i], starts[i]).0.events
    requires forall i :: 0 <= i < |stacks| ==> verbs[i] == cfgs[i].verb
    ensures var r := Schedule(System(logs, seq(|logs|, _ => 0), map[]), picks);
            var n := |r.logs|;
            forall v ::
              Read(r.gauge, v) == InFlightCount(r, v, n)
              && RunningCount(r, verbs, v, n) <= Read(r.gauge, v) <= UnfinishedCount(r, verbs, v, n)
  {
    var sys := System(logs, seq(|logs|, _ => 0), map[]);
    var bounds := BoundsOf(stacks, cfgs, starts, logs);
    forall v: string ensures Read(sys.gauge, v) == InFlightCount(sys, v, |sys.logs|) {
      NothingInFlightAtStart(sys, v, |sys.logs|);
    }
    GaugeEqualsRequestsInFlight(sys, bounds, picks);
    var r := Schedule(sys, picks);
    var n := |r.logs|;
    forall v: string
      ensures RunningCount(r, verbs, v, n) <= InFlightCount(r, v, n) <= UnfinishedCount(r, verbs, v, n)
    {
      InFlightIsBracketed(r, bounds, verbs, v, n);
    }
  }

  lemma BoundsOf(stacks: seq<seq<Middleware>>, cfgs: seq<Config>, starts: seq<State>, logs: seq<seq<Event>>)
    returns (bounds: seq<Bounds>)
    requires |stacks| == |cfgs| == |starts| == |logs|
    requires forall i :: 0 <= i < |stacks| ==> Meterings(stacks[i]) == 1 && starts[i].events == []
    requires forall i :: 0 <= i < |stacks| ==> logs[i] == Exec(stacks[i], cfgs[i], starts[i]).0.events
    ensures |bounds| == |logs|
    ensures forall i :: 0 <= i < |logs| ==> Brackets(logs[i], bounds[i]) && bounds[i].verb == cfgs[i].verb
  {
    hide Exec, CountedInThenOut, HandledAt, Meterings;
    if stacks == [] {
      bounds := [];
    } else {
      var last := |stacks| - 1;
      bounds := BoundsOf(stacks[..last], cfgs[..last], starts[..last], logs[..last]);
      var i, h, j := ChainCountsInThenOut(stacks[last], cfgs[last], starts[last]);
      bounds := bounds + [Bounds(cfgs[last].verb, i, h, j)];
    }
  }
}
