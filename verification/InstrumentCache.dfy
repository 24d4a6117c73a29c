/** The lazy instrument cache of `metrics/metrics.go`: `Load`, create, `LoadOrStore` as separate atomic
    steps of any number of concurrent calls on one `sync.Map`. */
module InstrumentCache {
  import opened Wrappers
  import opened HistogramKey

  /** What a call asks for; only histograms have boundaries and validate them. */
  datatype Spec = Spec(name: string, buckets: seq<Boundary>)

  /** An instrument with its identity and the configuration it was created with. */
  datatype Instrument = Instrument(id: nat, spec: Spec)

  /** `Counter` stands for every kind cached under its bare name. */
  datatype Kind = Counter | Histogram(fmt: Format)

  /** All the protocol knows of a request: whether it is accepted, and the key it is cached under. */
  datatype Protocol = Protocol(keyOf: Spec -> string, valid: Spec -> bool)

  function Counters(): Protocol {
    Protocol((s: Spec) => s.name, (s: Spec) => true)
  }

  function Histograms(fmt: Format): Protocol {
    Protocol((s: Spec) => CacheKey(fmt, s.name, s.buckets), (s: Spec) => Accepted(s.buckets))
  }

  function ProtocolOf(kind: Kind): Protocol {
    match kind case Counter => Counters() case Histogram(fmt) => Histograms(fmt)
  }

  datatype Phase = Start | Missed | Created(own: Instrument) | Done(got: Instrument) | Failed

  datatype Call = Call(spec: Spec, phase: Phase)

  datatype System = System(cache: map<string, Instrument>, calls: seq<Call>, nextId: nat)

  /** One scheduling decision: which call moves, and whether the meter refuses if it is asked. */
  datatype Pick = Pick(call: nat, refused: bool)

  /** The next atomic step of one call. */
  function Step(p: Protocol, sys: System, pick: Pick): System {
    if pick.call >= |sys.calls| then sys
    else
      var call := sys.calls[pick.call];
      var key := p.keyOf(call.spec);
      match call.phase
      case Start =>
        if !p.valid(call.spec) then Move(sys, pick.call, Failed)
        else if key in sys.cache then Move(sys, pick.call, Done(sys.cache[key]))
        else Move(sys, pick.call, Missed)
      case Missed =>
        if pick.refused then Move(sys, pick.call, Failed)
        else Move(sys, pick.call, Created(Instrument(sys.nextId, call.spec))).(nextId := sys.nextId + 1)
      case Created(own) =>
        if key in sys.cache then Move(sys, pick.call, Done(sys.cache[key]))
        else Move(sys, pick.call, Done(own)).(cache := sys.cache[key := own])
      case _ => sys
  }

  function Move(sys: System, i: nat, phase: Phase): System
    requires i < |sys.calls|
  {
    sys.(calls := sys.calls[i := sys.calls[i].(phase := phase)])
  }

  function Run(p: Protocol, sys: System, picks: seq<Pick>): System
    decreases |picks|
  {
    if picks == [] then sys else Run(p, Step(p, sys, picks[0]), picks[1..])
  }

  // ---------------------------------------------------------------- one call on its own

  /** A factory with its `sync.Map` and its meter's supply of fresh instruments. */
  class MetricsFactory {
    const kind: Kind
    var cache: map<string, Instrument>
    var nextId: nat

    constructor (kind: Kind)
      ensures this.kind == kind && cache == map[] && nextId == 0
    {
      this.kind, cache, nextId := kind, map[], 0;
    }

    method Load(key: string) returns (found: Option<Instrument>)
      ensures found == if key in cache then Some(cache[key]) else None
    {
      found := if key in cache then Some(cache[key]) else None;
    }

    method LoadOrStore(key: string, value: Instrument) returns (actual: Instrument, loaded: bool)
      modifies this`cache
      ensures loaded == (key in old(cache)) && key in cache && actual == cache[key]
      ensures cache == if loaded then old(cache) else old(cache)[key := value]
    {
      if key in cache {
        return cache[key], true;
      }
      cache := cache[key := value];
      return value, false;
    }

    /** Run without interference, a call is three steps of `Run`. It fails only on an invalid request or,
        with nothing published under the key, on a refusal of the meter; else it returns what is published,
        which is a new instrument of its own if nothing was. */
    method GetOrCreate(spec: Spec, refused: bool) returns (got: Option<Instrument>)
      modifies this
      ensures var p, key := ProtocolOf(kind), ProtocolOf(kind).keyOf(spec);
              && (got.Some? <==> p.valid(spec) && (key in old(cache) || !refused))
              && (got.Some? ==> key in cache && got.value == cache[key])
              && cache == if got.Some? && key !in old(cache) then old(cache)[key := Instrument(old(nextId), spec)]
                          else old(cache)
      ensures var pick := Pick(0, refused);
              var r := Run(ProtocolOf(kind), System(old(cache), [Call(spec, Start)], old(nextId)), [pick, pick, pick]);
              && cache == r.cache && nextId == r.nextId
              && r.calls == [Call(spec, if got.Some? then Done(got.value) else Failed)]
    {
      hide CacheKey, Sort, StrictlyIncreasing, Run;
      ghost var pick := Pick(0, refused);
      ghost var s0 := System(cache, [Call(spec, Start)], nextId);
      ghost var s1 := Step(ProtocolOf(kind), s0, pick);
      ghost var s2 := Step(ProtocolOf(kind), s1, pick);
      ghost var s3 := Step(ProtocolOf(kind), s2, pick);
      ThreeSteps(ProtocolOf(kind), s0, pick);
      var key := spec.name;
      if kind.Histogram? {
        var valid := ValidateBuckets(Sort(spec.buckets));
        if !valid {
          return None;
        }
        key := HistogramCacheKey(kind.fmt, spec.name, spec.buckets);
      }
      got := Load(key);
      if got.Some? {
        return;
      }
      if refused {
        return None;
      }
      var own := Instrument(nextId, spec);
      nextId := nextId + 1;
      var actual, _ := LoadOrStore(key, own);
      got := Some(actual);
    }
  }

  lemma ThreeSteps(p: Protocol, sys: System, pick: Pick)
    ensures Run(p, sys, [pick, pick, pick]) == Step(p, Step(p, Step(p, sys, pick), pick), pick)
  {
    assert [pick, pick, pick][1..] == [pick, pick];
    assert [pick, pick][1..] == [pick];
    assert [pick][1..] == [];
    var s1 := Step(p, sys, pick);
    var s2 := Step(p, s1, pick);
    assert Run(p, s2, [pick]) == Run(p, Step(p, s2, pick), []);
  }

  // ---------------------------------------------------------------- what every interleaving keeps

  /** Published instruments sit under the key of their own configuration and never twice; an instrument
      still private to a call is neither published nor shared; a finished call holds what is published. */
  predicate Inv(p: Protocol, sys: System) {
    && (forall k :: k in sys.cache ==>
          p.keyOf(sys.cache[k].spec) == k && p.valid(sys.cache[k].spec) && sys.cache[k].id < sys.nextId)
    && (forall k, l :: k in sys.cache && l in sys.cache && sys.cache[k].id == sys.cache[l].id ==> k == l)
    && (forall i :: 0 <= i < |sys.calls| ==> CallInv(p, sys, sys.calls[i]))
    && (forall i, j :: 0 <= i < j < |sys.calls| && sys.calls[i].phase.Created? && sys.calls[j].phase.Created? ==>
          sys.calls[i].phase.own.id != sys.calls[j].phase.own.id)
  }

  predicate CallInv(p: Protocol, sys: System, call: Call) {
    var key := p.keyOf(call.spec);
    match call.phase
    case Start => true
    case Missed => p.valid(call.spec)
    case Created(own) =>
      && own.spec == call.spec && p.valid(call.spec) && own.id < sys.nextId
      && forall k :: k in sys.cache ==> sys.cache[k].id != own.id
    case Done(got) => p.valid(call.spec) && key in sys.cache && sys.cache[key] == got
    case Failed => true
  }

  /** Every published entry of `a` is still there, unchanged, in `b`. */
  predicate Extends(a: map<string, Instrument>, b: map<string, Instrument>) {
    forall k :: k in a ==> k in b && b[k] == a[k]
  }

  lemma MoveKeepsInv(p: Protocol, sys: System, i: nat, phase: Phase, nextId: nat)
    requires Inv(p, sys) && i < |sys.calls| && nextId >= sys.nextId
    requires CallInv(p, sys.(nextId := nextId), sys.calls[i].(phase := phase))
    requires phase.Created? ==> phase.own.id >= sys.nextId
    ensures Inv(p, Move(sys, i, phase).(nextId := nextId))
  {
    var next := Move(sys, i, phase).(nextId := nextId);
    forall j | 0 <= j < |next.calls| ensures CallInv(p, next, next.calls[j]) {
      assert CallInv(p, sys, sys.calls[j]);
    }
    forall j | 0 <= j < |sys.calls| && sys.calls[j].phase.Created? ensures sys.calls[j].phase.own.id < sys.nextId {
      assert CallInv(p, sys, sys.calls[j]);
    }
  }

  lemma PublishKeepsInv(p: Protocol, sys: System, i: nat)
    requires Inv(p, sys) && i < |sys.calls| && sys.calls[i].phase.Created?
    requires p.keyOf(sys.calls[i].spec) !in sys.cache
    ensures var own := sys.calls[i].phase.own;
            Inv(p, Move(sys, i, Done(own)).(cache := sys.cache[p.keyOf(sys.calls[i].spec) := own]))
  {
    var own := sys.calls[i].phase.own;
    var next := Move(sys, i, Done(own)).(cache := sys.cache[p.keyOf(sys.calls[i].spec) := own]);
    assert CallInv(p, sys, sys.calls[i]);
    forall j | 0 <= j < |next.calls| ensures CallInv(p, next, next.calls[j]) {
      assert CallInv(p, sys, sys.calls[j]);
      assert j < i || j == i || i < j;
    }
  }

  lemma CallHasInv(p: Protocol, sys: System, i: nat)
    requires Inv(p, sys) && i < |sys.calls|
    ensures CallInv(p, sys, sys.calls[i])
    ensures forall k :: k in sys.cache ==> sys.cache[k].id < sys.nextId
  {
  }

  lemma StepKeepsInv(p: Protocol, sys: System, pick: Pick)
    requires Inv(p, sys)
    ensures Inv(p, Step(p, sys, pick))
    ensures Extends(sys.cache, Step(p, sys, pick).cache)
  {
    hide Inv;
    if pick.call < |sys.calls| {
      var i := pick.call;
      var call := sys.calls[i];
      var key := p.keyOf(call.spec);
      CallHasInv(p, sys, i);
      match call.phase
      case Start =>
        MoveKeepsInv(p, sys, i,
          if !p.valid(call.spec) then Failed else if key in sys.cache then Done(sys.cache[key]) else Missed,
          sys.nextId);
      case Missed =>
        if pick.refused {
          MoveKeepsInv(p, sys, i, Failed, sys.nextId);
        } else {
          MoveKeepsInv(p, sys, i, Created(Instrument(sys.nextId, call.spec)), sys.nextId + 1);
        }
      case Created(own) =>
        if key in sys.cache {
          MoveKeepsInv(p, sys, i, Done(sys.cache[key]), sys.nextId);
        } else {
          PublishKeepsInv(p, sys, i);
        }
      case _ =>
    }
  }

  lemma {:induction false} RunKeepsInv(p: Protocol, sys: System, picks: seq<Pick>)
    requires Inv(p, sys)
    ensures Inv(p, Run(p, sys, picks))
    ensures Extends(sys.cache, Run(p, sys, picks).cache)
    decreases |picks|
  {
    if picks != [] {
      StepKeepsInv(p, sys, picks[0]);
      RunKeepsInv(p, Step(p, sys, picks[0]), picks[1..]);
    }
  }

  lemma {:induction false} RunKeepsSpecs(p: Protocol, sys: System, picks: seq<Pick>)
    ensures var r := Run(p, sys, picks);
            |r.calls| == |sys.calls| && forall i :: 0 <= i < |sys.calls| ==> r.calls[i].spec == sys.calls[i].spec
    decreases |picks|
  {
    if picks != [] {
      RunKeepsSpecs(p, Step(p, sys, picks[0]), picks[1..]);
    }
  }

  predicate Fresh(sys: System) {
    sys.cache == map[] && forall i :: 0 <= i < |sys.calls| ==> sys.calls[i].phase == Start
  }

  /** From an empty cache, after any schedule prefix and any continuation: nothing published is ever
      replaced, and every successful call holds the published instrument of its key, for good. */
  lemma SuccessfulCallsHoldThePublishedInstrument(p: Protocol, sys: System, picks: seq<Pick>, later: seq<Pick>)
    requires Fresh(sys)
    ensures var r := Run(p, sys, picks);
            var r' := Run(p, r, later);
            && Extends(r.cache, r'.cache)
            && forall i :: 0 <= i < |r.calls| && r.calls[i].phase.Done? ==>
                 var key := p.keyOf(r.calls[i].spec);
                 key in r.cache && key in r'.cache && r'.cache[key] == r.cache[key] == r.calls[i].phase.got
  {
    RunKeepsInv(p, sys, picks);
    var r := Run(p, sys, picks);
    RunKeepsInv(p, r, later);
    forall i | 0 <= i < |r.calls| && r.calls[i].phase.Done?
      ensures var key := p.keyOf(r.calls[i].spec); key in r.cache && r.cache[key] == r.calls[i].phase.got
    {
      assert CallInv(p, r, r.calls[i]);
    }
  }

  // ---------------------------------------------------------------- which calls succeed

  /** The call is picked while the meter refuses. */
  predicate Refused(picks: seq<Pick>, i: nat) {
    exists k :: 0 <= k < |picks| && picks[k] == Pick(i, true)
  }

  /** How often a call is picked. */
  function Picked(picks: seq<Pick>, i: nat): nat {
    if picks == [] then 0 else (if picks[0].call == i then 1 else 0) + Picked(picks[1..], i)
  }

  /** How many more times a call must be picked. */
  function StepsLeft(phase: Phase): nat {
    match phase case Start => 3 case Missed => 2 case Created(_) => 1 case _ => 0
  }

  lemma {:induction false} FailsOnlyIf(p: Protocol, sys: System, picks: seq<Pick>, i: nat)
    requires i < |sys.calls| && !sys.calls[i].phase.Failed?
    ensures var r := Run(p, sys, picks);
            |r.calls| == |sys.calls| &&
            (r.calls[i].phase.Failed? ==> !p.valid(sys.calls[i].spec) || Refused(picks, i))
    decreases |picks|
  {
    if picks != [] {
      var next := Step(p, sys, picks[0]);
      if next.calls[i].phase.Failed? {
        RunKeepsSpecs(p, next, picks[1..]);
        assert !p.valid(sys.calls[i].spec) || picks[0] == Pick(i, true);
      } else {
        FailsOnlyIf(p, next, picks[1..], i);
        RefusedLater(picks, i);
      }
    }
  }

  lemma RefusedLater(picks: seq<Pick>, i: nat)
    requires picks != []
    ensures Refused(picks, i) <==> picks[0] == Pick(i, true) || Refused(picks[1..], i)
  {
    if Refused(picks[1..], i) {
      var k :| 0 <= k < |picks[1..]| && picks[1..][k] == Pick(i, true);
      assert picks[k + 1] == Pick(i, true);
    }
    if Refused(picks, i) {
      var k :| 0 <= k < |picks| && picks[k] == Pick(i, true);
      assert k > 0 ==> picks[1..][k - 1] == Pick(i, true);
    }
  }

  /** A failed or finished call stays as it is. */
  lemma {:induction false} EndedStays(p: Protocol, sys: System, picks: seq<Pick>, i: nat)
    requires i < |sys.calls| && StepsLeft(sys.calls[i].phase) == 0
    ensures var r := Run(p, sys, picks); |r.calls| == |sys.calls| && r.calls[i] == sys.calls[i]
    decreases |picks|
  {
    if picks != [] {
      EndedStays(p, Step(p, sys, picks[0]), picks[1..], i);
    }
  }

  lemma {:induction false} EnoughPicksFinish(p: Protocol, sys: System, picks: seq<Pick>, i: nat)
    requires i < |sys.calls| && !sys.calls[i].phase.Failed? && p.valid(sys.calls[i].spec)
    requires Picked(picks, i) >= StepsLeft(sys.calls[i].phase) && !Refused(picks, i)
    ensures var r := Run(p, sys, picks); |r.calls| == |sys.calls| && r.calls[i].phase.Done?
    decreases |picks|
  {
    if picks != [] {
      RefusedLater(picks, i);
      EnoughPicksFinish(p, Step(p, sys, picks[0]), picks[1..], i);
    }
  }

  /** Every published instrument, and every one still private, was made from the request of some call. */
  predicate Sourced(sys: System) {
    && (forall k :: k in sys.cache ==> exists i :: 0 <= i < |sys.calls| && sys.calls[i].spec == sys.cache[k].spec)
    && forall i :: 0 <= i < |sys.calls| && sys.calls[i].phase.Created? ==>
         sys.calls[i].phase.own.spec == sys.calls[i].spec
  }

  lemma StepKeepsSpecs(p: Protocol, sys: System, pick: Pick)
    ensures var next := Step(p, sys, pick);
            |next.calls| == |sys.calls| && forall i :: 0 <= i < |sys.calls| ==> next.calls[i].spec == sys.calls[i].spec
  {
  }

  lemma StepPublishesOwn(p: Protocol, sys: System, pick: Pick, k: string)
    requires Sourced(sys) && k in Step(p, sys, pick).cache
    ensures var next := Step(p, sys, pick);
            || (k in sys.cache && next.cache[k] == sys.cache[k])
            || (pick.call < |sys.calls| && next.cache[k].spec == sys.calls[pick.call].spec)
  {
  }

  lemma StepKeepsSourced(p: Protocol, sys: System, pick: Pick)
    requires Sourced(sys)
    ensures Sourced(Step(p, sys, pick))
  {
    var next := Step(p, sys, pick);
    StepKeepsSpecs(p, sys, pick);
    forall k | k in next.cache ensures exists i :: 0 <= i < |next.calls| && next.calls[i].spec == next.cache[k].spec {
      StepPublishesOwn(p, sys, pick, k);
      hide Step;
      if k in sys.cache && next.cache[k] == sys.cache[k] {
        var i :| 0 <= i < |sys.calls| && sys.calls[i].spec == sys.cache[k].spec;
        assert next.calls[i].spec == next.cache[k].spec;
      } else {
        assert next.calls[pick.call].spec == next.cache[k].spec;
      }
    }
  }

  lemma {:induction false} RunKeepsSourced(p: Protocol, sys: System, picks: seq<Pick>)
    requires Sourced(sys)
    ensures Sourced(Run(p, sys, picks))
    decreases |picks|
  {
    if picks != [] {
      StepKeepsSourced(p, sys, picks[0]);
      RunKeepsSourced(p, Step(p, sys, picks[0]), picks[1..]);
    }
  }

  /** In every schedule: a call fails only if its request is invalid or the meter refused it, an invalid
      one fails as soon as it is picked, and a valid one that is never refused succeeds once it has been
      picked three times. */
  lemma CallsSucceedUnlessRefused(p: Protocol, sys: System, picks: seq<Pick>, i: nat)
    requires Fresh(sys) && i < |sys.calls|
    ensures var r := Run(p, sys, picks);
            var valid := p.valid(sys.calls[i].spec);
            && |r.calls| == |sys.calls|
            && (r.calls[i].phase.Failed? ==> !valid || Refused(picks, i))
            && (!valid && Picked(picks, i) > 0 ==> r.calls[i].phase.Failed?)
            && (valid && !Refused(picks, i) && Picked(picks, i) >= 3 ==> r.calls[i].phase.Done?)
  {
    FailsOnlyIf(p, sys, picks, i);
    if !p.valid(sys.calls[i].spec) && Picked(picks, i) > 0 {
      InvalidFails(p, sys, picks, i);
    }
    if p.valid(sys.calls[i].spec) && !Refused(picks, i) && Picked(picks, i) >= 3 {
      EnoughPicksFinish(p, sys, picks, i);
    }
  }

  lemma {:induction false} InvalidFails(p: Protocol, sys: System, picks: seq<Pick>, i: nat)
    requires i < |sys.calls| && sys.calls[i].phase.Start? && !p.valid(sys.calls[i].spec) && Picked(picks, i) > 0
    ensures var r := Run(p, sys, picks); |r.calls| == |sys.calls| && r.calls[i].phase.Failed?
    decreases |picks|
  {
    var next := Step(p, sys, picks[0]);
    if picks[0].call == i {
      EndedStays(p, next, picks[1..], i);
    } else {
      InvalidFails(p, next, picks[1..], i);
    }
  }

  /** A successful call gets an instrument made for its own key from the request of some call with that
      key: its own request, if no other call asks for the key. */
  lemma GotIsMadeForTheKey(p: Protocol, sys: System, picks: seq<Pick>, i: nat)
    requires Fresh(sys) && i < |sys.calls|
    requires var r := Run(p, sys, picks); |r.calls| == |sys.calls| && r.calls[i].phase.Done?
    ensures var got, spec := Run(p, sys, picks).calls[i].phase.got, sys.calls[i].spec;
            && p.keyOf(got.spec) == p.keyOf(spec)
            && (exists j :: 0 <= j < |sys.calls| && sys.calls[j].spec == got.spec)
            && ((forall j :: 0 <= j < |sys.calls| && p.keyOf(sys.calls[j].spec) == p.keyOf(spec) ==> j == i) ==>
                  got.spec == spec)
  {
    RunKeepsInv(p, sys, picks);
    RunKeepsSpecs(p, sys, picks);
    RunKeepsSourced(p, sys, picks);
    var r := Run(p, sys, picks);
    assert CallInv(p, r, r.calls[i]);
    var key := p.keyOf(sys.calls[i].spec);
    var j :| 0 <= j < |r.calls| && r.calls[j].spec == r.cache[key].spec;
    assert sys.calls[j].spec == r.cache[key].spec;
  }

  /** Two successful calls get the same instrument iff their keys agree. */
  lemma SameInstrumentIffSameKey(p: Protocol, sys: System, picks: seq<Pick>, i: nat, j: nat)
    requires Fresh(sys)
    requires i < |sys.calls| && j < |sys.calls|
    requires var r := Run(p, sys, picks); |r.calls| == |sys.calls| && r.calls[i].phase.Done? && r.calls[j].phase.Done?
    ensures var r := Run(p, sys, picks);
            && p.valid(sys.calls[i].spec) && p.valid(sys.calls[j].spec)
            && (r.calls[i].phase.got == r.calls[j].phase.got <==>
                p.keyOf(sys.calls[i].spec) == p.keyOf(sys.calls[j].spec))
  {
    RunKeepsInv(p, sys, picks);
    RunKeepsSpecs(p, sys, picks);
    var r := Run(p, sys, picks);
    assert CallInv(p, r, r.calls[i]) && CallInv(p, r, r.calls[j]);
  }

  /** In every interleaving: two successful counter calls return the same instrument iff they asked for
      the same name, and a counter call fails only if the meter refused it. */
  lemma SameCounterIffSameName(sys: System, picks: seq<Pick>, i: nat, j: nat)
    requires Fresh(sys) && i < |sys.calls| && j < |sys.calls|
    ensures var r := Run(Counters(), sys, picks);
            && |r.calls| == |sys.calls|
            && (r.calls[i].phase.Failed? ==> Refused(picks, i))
            && (r.calls[i].phase.Done? && r.calls[j].phase.Done? ==>
                 (r.calls[i].phase.got == r.calls[j].phase.got <==> sys.calls[i].spec.name == sys.calls[j].spec.name))
  {
    hide Run;
    CallsSucceedUnlessRefused(Counters(), sys, picks, i);
    var r := Run(Counters(), sys, picks);
    if r.calls[i].phase.Done? && r.calls[j].phase.Done? {
      SameInstrumentIffSameKey(Counters(), sys, picks, i, j);
    }
  }

  /** In every interleaving, with colon-free names: two successful histogram calls return the same
      instrument iff they asked for the same name and the same boundaries, in whatever order given. */
  lemma SameHistogramIffSameNameAndBoundaries(fmt: Format, sys: System, picks: seq<Pick>, i: nat, j: nat)
    requires GoodFormat(fmt) && Fresh(sys)
    requires i < |sys.calls| && j < |sys.calls|
    requires ':' !in sys.calls[i].spec.name && ':' !in sys.calls[j].spec.name
    requires var r := Run(Histograms(fmt), sys, picks);
             |r.calls| == |sys.calls| && r.calls[i].phase.Done? && r.calls[j].phase.Done?
    ensures var r := Run(Histograms(fmt), sys, picks);
            var a, b := sys.calls[i].spec, sys.calls[j].spec;
            r.calls[i].phase.got == r.calls[j].phase.got <==>
            a.name == b.name && forall x :: x in a.buckets <==> x in b.buckets
  {
    SameInstrumentIffSameKey(Histograms(fmt), sys, picks, i, j);
    var a, b := sys.calls[i].spec, sys.calls[j].spec;
    AcceptedSetsAreMultisets(a.buckets, b.buckets);
    if a.name == b.name && multiset(a.buckets) == multiset(b.buckets) {
      SortSorts(b.buckets);
      SortIsUnique(Sort(a.buckets), Sort(b.buckets));
      assert |a.buckets| == |multiset(a.buckets)| == |b.buckets|;
    } else {
      CollisionsIff(fmt, a.name, a.buckets, b.name, b.buckets);
    }
  }

  /** With a colon in a name the claim fails: a histogram without boundaries called "a:1" is handed the
      instrument of "a" with the one boundary the format writes as "1". */
  lemma ColonNamesCollide(fmt: Format, one: Boundary)
    requires GoodFormat(fmt) && !one.NaN? && fmt(one) == "1"
    ensures var plain, bucketed := Spec("a:1", []), Spec("a", [one]);
            var p := Histograms(fmt);
            p.valid(plain) && p.valid(bucketed) && plain != bucketed && p.keyOf(plain) == p.keyOf(bucketed)
  {
    AcceptedIff([one]);
    AcceptedIff([]);
    assert Sort([one]) == [one];
    assert "a" + ":" + "1" == "a:1";
  }
}
