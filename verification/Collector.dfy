/** The process-wide metrics collector of `telemetrycore/metrics_collector.go`: a start/stop state
    machine around a `sync.Once` that is replaced to allow a restart. Ensure and Stop hold one mutex,
    so every history is a sequence of whole calls. */
module Collector {
  import opened Wrappers

  /** What `EnsureMetricsCollector` is given. */
  datatype Telemetry = NilTelemetry | NoMeter | NoFactory | Usable

  datatype Op = Ensure(tl: Telemetry) | Stop

  datatype InitError = NilFactory

  /** The package variables. `channels[i]` says whether the i-th shutdown channel made is still open,
      which is also whether the collector goroutine selecting on it is running; `shutdown` is the
      channel variable, and `doubleClosed` the panic of closing a closed channel. */
  datatype State = State(
    onceSpent: bool,
    shutdown: Option<nat>,
    started: bool,
    initErr: Option<InitError>,
    channels: seq<bool>,
    doubleClosed: bool)

  const INITIAL := State(false, None, false, None, [], false)

  /** The body of `once.Do`. */
  function StartOnce(s: State, tl: Telemetry): State {
    var s := s.(onceSpent := true);
    if tl != Usable then s.(initErr := Some(NilFactory))
    else s.(shutdown := Some(|s.channels|), channels := s.channels + [true], started := true)
  }

  function AfterEnsure(s: State, tl: Telemetry): State {
    if tl == NilTelemetry || tl == NoMeter || s.started then s
    else
      var s := if s.initErr.Some? then s.(onceSpent := false, initErr := None) else s;
      if s.onceSpent then s else StartOnce(s, tl)
  }

  function AfterStop(s: State): State {
    if !s.started || s.shutdown.None? then s
    else
      var c := s.shutdown.value;
      var closed :=
        if c < |s.channels| && s.channels[c] then s.(channels := s.channels[c := false])
        else s.(doubleClosed := true);
      closed.(started := false, onceSpent := false, initErr := None)
  }

  function Apply(s: State, op: Op): State {
    match op case Ensure(tl) => AfterEnsure(s, tl) case Stop => AfterStop(s)
  }

  function History(ops: seq<Op>): State {
    if ops == [] then INITIAL else Apply(History(ops[..|ops|-1]), ops[|ops|-1])
  }

  /** The package variables as they are updated. */
  class CollectorState {
    var onceSpent: bool
    var shutdown: Option<nat>
    var started: bool
    var initErr: Option<InitError>
    var channels: seq<bool>
    var doubleClosed: bool

    constructor ()
      ensures View() == INITIAL
    {
      onceSpent, shutdown, started := false, None, false;
      initErr, channels, doubleClosed := None, [], false;
    }

    function View(): State
      reads this
    {
      State(onceSpent, shutdown, started, initErr, channels, doubleClosed)
    }

    method EnsureMetricsCollector(tl: Telemetry) returns (err: Option<InitError>)
      modifies this
      ensures View() == AfterEnsure(old(View()), tl)
      ensures err == if tl == NilTelemetry || tl == NoMeter || old(started) then None else initErr
    {
      if tl == NilTelemetry || tl == NoMeter {
        return None;
      }
      if started {
        return None;
      }
      if initErr.Some? {
        onceSpent := false;
        initErr := None;
      }
      if !onceSpent {
        onceSpent := true;
        if tl != Usable {
          initErr := Some(NilFactory);
        } else {
          channels := channels + [true];
          shutdown := Some(|channels| - 1);
          started := true;
        }
      }
      return initErr;
    }

    method StopMetricsCollector()
      modifies this
      ensures View() == AfterStop(old(View()))
    {
      if started && shutdown.Some? {
        if shutdown.value < |channels| && channels[shutdown.value] {
          channels := channels[shutdown.value := false];
        } else {
          doubleClosed := true;
        }
        started := false;
        onceSpent := false;
        initErr := None;
      }
    }
  }

  function OpenCount(channels: seq<bool>): nat {
    if channels == [] then 0 else (if channels[0] then 1 else 0) + OpenCount(channels[1..])
  }

  lemma {:induction false} OpenCountUpdate(channels: seq<bool>, i: nat, v: bool)
    requires i < |channels|
    ensures OpenCount(channels[i := v]) == OpenCount(channels) + (if v then 1 else 0) - (if channels[i] then 1 else 0)
  {
    if i == 0 {
      assert channels[0 := v][1..] == channels[1..];
    } else {
      assert channels[i := v][1..] == channels[1..][i - 1 := v];
      OpenCountUpdate(channels[1..], i - 1, v);
    }
  }

  lemma {:induction false} OpenCountAppend(channels: seq<bool>, v: bool)
    ensures OpenCount(channels + [v]) == OpenCount(channels) + (if v then 1 else 0)
  {
    if channels != [] {
      assert (channels + [v])[1..] == channels[1..] + [v];
      OpenCountAppend(channels[1..], v);
    }
  }

  /** The once is spent iff the collector runs or an init error is held, exactly one collector runs iff
      started, its channel is the one the variable holds, and no channel was ever closed twice. */
  predicate Inv(s: State) {
    && (s.onceSpent <==> s.started || s.initErr.Some?)
    && (s.started ==> s.initErr.None?)
    && OpenCount(s.channels) == (if s.started then 1 else 0)
    && (s.started ==> s.shutdown.Some? && s.shutdown.value < |s.channels| && s.channels[s.shutdown.value])
    && !s.doubleClosed
  }

  lemma StepKeepsInv(s: State, op: Op)
    requires Inv(s)
    ensures Inv(Apply(s, op))
  {
    OpenCountAppend(s.channels, true);
    if s.started {
      OpenCountUpdate(s.channels, s.shutdown.value, false);
    }
  }

  lemma {:induction false} EveryHistoryKeepsInv(ops: seq<Op>)
    ensures Inv(History(ops))
  {
    if ops != [] {
      EveryHistoryKeepsInv(ops[..|ops|-1]);
      StepKeepsInv(History(ops[..|ops|-1]), ops[|ops|-1]);
    }
  }

  /** The last call decides: whatever failed, started or stopped before, a usable Ensure leaves exactly
      one collector running and no error, and a Stop leaves none. */
  lemma UsableEnsureAlwaysLeavesOneRunning(ops: seq<Op>)
    ensures var s := History(ops + [Ensure(Usable)]);
            s.started && OpenCount(s.channels) == 1 && s.initErr.None? && !s.doubleClosed
    ensures var s := History(ops + [Stop]);
            !s.started && OpenCount(s.channels) == 0 && !s.doubleClosed
  {
    EveryHistoryKeepsInv(ops);
    EveryHistoryKeepsInv(ops + [Ensure(Usable)]);
    EveryHistoryKeepsInv(ops + [Stop]);
    assert (ops + [Ensure(Usable)])[..|ops|] == ops;
    assert (ops + [Stop])[..|ops|] == ops;
  }

  /** Whether a collector is running, told from the history alone: the last usable Ensure comes after
      the last Stop. */
  predicate ShouldRun(ops: seq<Op>) {
    ops != [] &&
    match ops[|ops|-1]
    case Ensure(tl) => tl == Usable || ShouldRun(ops[..|ops|-1])
    case Stop => false
  }

  /** The state machine's flag agrees with that reading of the history. */
  lemma {:induction false} RunsIffLastUsableEnsureAfterLastStop(ops: seq<Op>)
    ensures History(ops).started <==> ShouldRun(ops)
  {
    EveryHistoryKeepsInv(ops);
    if ops != [] {
      EveryHistoryKeepsInv(ops[..|ops|-1]);
      RunsIffLastUsableEnsureAfterLastStop(ops[..|ops|-1]);
    }
  }

  /** Whether an init error is held, told from the history alone: an Ensure without a factory came while
      nothing ran, and no usable Ensure since. A Stop does not clear it. */
  predicate ShouldHoldError(ops: seq<Op>) {
    exists i :: 0 <= i < |ops| && ops[i] == Ensure(NoFactory) && !ShouldRun(ops[..i]) && Ensure(Usable) !in ops[i..]
  }

  lemma ErrorReadingStep(ops: seq<Op>, op: Op)
    ensures ShouldHoldError(ops + [op]) <==>
            (op == Ensure(NoFactory) && !ShouldRun(ops)) || (op != Ensure(Usable) && ShouldHoldError(ops))
  {
    hide ShouldRun;
    var all := ops + [op];
    assert all[..|ops|] == ops && all[|ops|..] == [op];
    forall i | 0 <= i < |ops| ensures all[..i] == ops[..i] && all[i..] == ops[i..] + [op] && all[i] == ops[i] {
    }
    if op == Ensure(NoFactory) && !ShouldRun(ops) {
      assert all[|ops|] == op;
    }
    if i :| 0 <= i < |ops| && ops[i] == Ensure(NoFactory) && !ShouldRun(ops[..i]) && Ensure(Usable) !in ops[i..] {
      assert all[i] == Ensure(NoFactory) && !ShouldRun(all[..i]);
    }
  }

  lemma ErrorAfterStep(s: State, op: Op)
    requires Inv(s)
    ensures Apply(s, op).initErr.Some? <==>
            (op == Ensure(NoFactory) && !s.started) || (op != Ensure(Usable) && s.initErr.Some?)
  {
  }

  /** The state machine holds an error exactly by that reading of the history, and then nothing runs. */
  lemma {:induction false} HoldsErrorIff(ops: seq<Op>)
    ensures History(ops).initErr.Some? <==> ShouldHoldError(ops)
    ensures ShouldHoldError(ops) ==> !ShouldRun(ops)
  {
    hide ShouldHoldError, ShouldRun, Apply;
    EveryHistoryKeepsInv(ops);
    RunsIffLastUsableEnsureAfterLastStop(ops);
    if ops == [] {
      NoHistoryNoError();
    } else {
      var before, op := ops[..|ops|-1], ops[|ops|-1];
      assert ops == before + [op];
      HoldsErrorIff(before);
      ErrorReadingStep(before, op);
      EveryHistoryKeepsInv(before);
      RunsIffLastUsableEnsureAfterLastStop(before);
      ErrorAfterStep(History(before), op);
    }
  }

  /** A nil telemetry, or one without a meter, changes nothing. */
  lemma NothingToCollect(ops: seq<Op>)
    ensures History(ops + [Ensure(NilTelemetry)]) == History(ops + [Ensure(NoMeter)]) == History(ops)
  {
    assert forall op :: (ops + [op])[..|ops|] == ops;
  }

  lemma NoHistoryNoError()
    ensures !ShouldHoldError([])
  {
  }
}
