/** Go error values as trees, and the walks over them that `middleware/error_handling.go`,
    `middleware/logging.go` and `log/nil.go` perform.

    A node is a `*fiber.Error`, a typed-nil `*fiber.Error`, or any other error value, of which only
    what the walks can observe is kept: whether it is a typed nil, what its `Error()` method does,
    what its `As` method does when asked for a `*fiber.Error`, and what its `Unwrap` method returns. */
module ErrorTree {
  import opened Wrappers

  /** `*fiber.Error` without its pointer. */
  datatype FiberError = FiberError(code: int, message: string)

  /** What `Error()` does: answer a text of its own, panic, or call `Error()` on whatever it wraps. */
  datatype Text = Own(text: string) | Panics | Delegates

  /** What `As(&target)` does for a `*fiber.Error` target. */
  datatype AsMethod = NoMatch | Matches(target: Option<FiberError>)

  datatype Unwrap = NoUnwrap | One(inner: Option<Err>) | Many(members: seq<Option<Err>>)

  datatype Err =
    | Fiber(fiber: FiberError)
    | NilFiber
    | Other(typedNil: bool, text: Text, asMethod: AsMethod, unwrap: Unwrap)

  const INTERNAL_SERVER_ERROR: int := 500
  const ERR_INTERNAL_SERVER_ERROR: Err := Fiber(FiberError(INTERNAL_SERVER_ERROR, "Internal Server Error"))

  /** `log.IsNil` on a non-nil interface value. */
  predicate IsTypedNil(e: Err) {
    e.NilFiber? || (e.Other? && e.typedNil)
  }

  // ---------------------------------------------------------------- Error()

  /** The text `e.Error()` returns, or None when the call panics. */
  function Stringify(e: Err): Option<string>
    decreases Some(e), 1
  {
    match e
    case Fiber(f) => Some(f.message)
    case NilFiber => None
    case Other(_, Own(s), _, _) => Some(s)
    case Other(_, Panics, _, _) => None
    case Other(_, Delegates, _, NoUnwrap) => None
    case Other(_, Delegates, _, One(inner)) => if inner.None? then None else Stringify(inner.value)
    case Other(_, Delegates, _, Many(members)) => StringifyAll(members)
  }

  /** `errors.Join` and its kind: nil members are skipped, the others' texts stand on a line each. */
  function StringifyAll(members: seq<Option<Err>>): Option<string>
    decreases members, 0
  {
    if members == [] then Some("")
    else if members[0].None? then StringifyAll(members[1..])
    else
      match (Stringify(members[0].value), StringifyAll(members[1..]))
      case (Some(first), Some(rest)) =>
        Some(if forall i :: 0 < i < |members| ==> members[i].None? then first else first + "\n" + rest)
      case _ => None
  }

  /** `log.IsSafeToStringify`. */
  predicate IsSafeToStringify(e: Err) {
    !IsTypedNil(e) && Stringify(e).Some?
  }

  /** `target.Error()` is called in the course of `e.Error()`. */
  predicate Calls(e: Err, target: Err)
    decreases Some(e), 1
  {
    || e == target
    || (e.Other? && e.text == Delegates &&
        match e.unwrap
        case NoUnwrap => false
        case One(inner) => inner.Some? && Calls(inner.value, target)
        case Many(members) => AnyCalls(members, target))
  }

  predicate AnyCalls(members: seq<Option<Err>>, target: Err)
    decreases members, 0
  {
    members != [] && ((members[0].Some? && Calls(members[0].value, target)) || AnyCalls(members[1..], target))
  }

  /** A value whose own `Error` method panics: a typed-nil fiber error, one that says so, or one that calls
      `Error` on a nil it wraps. */
  predicate PanicsItself(e: Err) {
    e.NilFiber?
    || (e.Other? && (e.text == Panics || (e.text == Delegates && (e.unwrap == NoUnwrap || e.unwrap == One(None)))))
  }

  /** An error can be stringified exactly if it is no typed nil and no `Error` method it calls panics. */
  lemma SafeToStringifyIff(e: Err)
    ensures IsSafeToStringify(e) <==> !IsTypedNil(e) && forall target :: Calls(e, target) ==> !PanicsItself(target)
  {
    StringifyFailsIff(e);
  }

  lemma {:induction false} StringifyFailsIff(e: Err)
    ensures Stringify(e).None? <==> exists target :: Calls(e, target) && PanicsItself(target)
    decreases Some(e), 1
  {
    if PanicsItself(e) {
      assert Calls(e, e);
    } else if e.Other? && e.text == Delegates {
      match e.unwrap
      case One(inner) =>
        StringifyFailsIff(inner.value);
        forall target ensures Calls(e, target) <==> e == target || Calls(inner.value, target) {
        }
      case Many(members) =>
        StringifyAllFailsIff(members);
        forall target ensures Calls(e, target) <==> e == target || AnyCalls(members, target) {
        }
    }
  }

  lemma {:induction false} StringifyAllFailsIff(members: seq<Option<Err>>)
    ensures StringifyAll(members).None? <==> exists target :: AnyCalls(members, target) && PanicsItself(target)
    decreases members, 0
  {
    if members != [] {
      StringifyAllFailsIff(members[1..]);
      if members[0].Some? {
        StringifyFailsIff(members[0].value);
      }
      forall target
        ensures AnyCalls(members, target) <==>
                (members[0].Some? && Calls(members[0].value, target)) || AnyCalls(members[1..], target)
      {
      }
    }
  }

  // ---------------------------------------------------------------- walks

  /** `asFiberError`: skips a typed-nil match and keeps searching. */
  function AsFiberError(e: Option<Err>): Option<FiberError>
    decreases e, 1
  {
    if e.None? then None else
    match e.value
    case Fiber(f) => Some(f)
    case NilFiber => None
    case Other(_, _, Matches(Some(f)), _) => Some(f)
    case Other(_, _, _, NoUnwrap) => None
    case Other(_, _, _, One(inner)) => AsFiberError(inner)
    case Other(_, _, _, Many(members)) => FirstFiberError(members)
  }

  function FirstFiberError(members: seq<Option<Err>>): Option<FiberError>
    decreases members, 0
  {
    if members == [] then None
    else
      var found := AsFiberError(members[0]);
      if found.Some? then found else FirstFiberError(members[1..])
  }

  /** The standard library's `errors.As` with a `*fiber.Error` target: None when it reports false,
      otherwise the target it leaves, which is nil (`Some(None)`) when the first match is a typed nil. */
  function ErrorsAs(e: Option<Err>): Option<Option<FiberError>>
    decreases e, 1
  {
    if e.None? then None else
    match e.value
    case Fiber(f) => Some(Some(f))
    case NilFiber => Some(None)
    case Other(_, _, Matches(target), _) => Some(target)
    case Other(_, _, NoMatch, NoUnwrap) => None
    case Other(_, _, NoMatch, One(inner)) => ErrorsAs(inner)
    case Other(_, _, NoMatch, Many(members)) => ErrorsAsAny(members)
  }

  function ErrorsAsAny(members: seq<Option<Err>>): Option<Option<FiberError>>
    decreases members, 0
  {
    if members == [] then None
    else
      var found := ErrorsAs(members[0]);
      if found.Some? then found else ErrorsAsAny(members[1..])
  }

  /** `httpStatusCode` of a non-nil error: the mapped code, or the 500 Fiber renders. */
  function StatusOf(e: Err): int {
    var f := AsFiberError(Some(e));
    if f.Some? then f.value.code else INTERNAL_SERVER_ERROR
  }

  /** `normalizeHTTPHandlerError`: looks at the top-level value only. */
  function Normalize(e: Option<Err>): Option<Err> {
    if e.Some? && IsTypedNil(e.value) then Some(ERR_INTERNAL_SERVER_ERROR) else e
  }

  /** The error `WithHTTPErrorHandling` hands to the ErrorHandler for a non-nil, normalized error. */
  function MakeSafe(e: Err): Err {
    if IsSafeToStringify(e) then e
    else
      var f := AsFiberError(Some(e));
      if f.Some? then Fiber(f.value) else Fiber(FiberError(StatusOf(e), "internal error"))
  }

  // ---------------------------------------------------------------- reference reading of the walks

  /** Every match for `*fiber.Error` in the tree, nil ones included, in depth-first order. */
  function AllMatches(e: Option<Err>): seq<Option<FiberError>>
    decreases e, 1
  {
    if e.None? then [] else
    match e.value
    case Fiber(f) => [Some(f)]
    case NilFiber => [None]
    case Other(_, _, asMethod, unwrap) =>
      (if asMethod.Matches? then [asMethod.target] else []) +
      (match unwrap
       case NoUnwrap => []
       case One(inner) => AllMatches(inner)
       case Many(members) => MatchesOfAll(members))
  }

  function MatchesOfAll(members: seq<Option<Err>>): seq<Option<FiberError>>
    decreases members, 0
  {
    if members == [] then [] else AllMatches(members[0]) + MatchesOfAll(members[1..])
  }

  function FirstNonNil(ms: seq<Option<FiberError>>): Option<FiberError> {
    if ms == [] then None else if ms[0].Some? then ms[0] else FirstNonNil(ms[1..])
  }

  lemma {:induction false} FirstNonNilOfConcat(a: seq<Option<FiberError>>, b: seq<Option<FiberError>>)
    ensures FirstNonNil(a + b) == if FirstNonNil(a).Some? then FirstNonNil(a) else FirstNonNil(b)
  {
    if a == [] {
      assert a + b == b;
    } else {
      assert (a + b)[1..] == a[1..] + b;
      FirstNonNilOfConcat(a[1..], b);
    }
  }

  /** `asFiberError` answers the first non-nil match of the whole tree. */
  lemma {:induction false} AsFiberErrorIsFirstNonNilMatch(e: Option<Err>)
    ensures AsFiberError(e) == FirstNonNil(AllMatches(e))
    decreases e, 1
  {
    if e.Some? && e.value.Other? {
      var own := if e.value.asMethod.Matches? then [e.value.asMethod.target] else [];
      match e.value.unwrap
      case NoUnwrap => assert AllMatches(e) == own;
      case One(inner) =>
        AsFiberErrorIsFirstNonNilMatch(inner);
        FirstNonNilOfConcat(own, AllMatches(inner));
      case Many(members) =>
        FirstFiberErrorIsFirstNonNilMatch(members);
        FirstNonNilOfConcat(own, MatchesOfAll(members));
    }
  }

  lemma {:induction false} FirstFiberErrorIsFirstNonNilMatch(members: seq<Option<Err>>)
    ensures FirstFiberError(members) == FirstNonNil(MatchesOfAll(members))
    decreases members, 0
  {
    if members != [] {
      AsFiberErrorIsFirstNonNilMatch(members[0]);
      FirstFiberErrorIsFirstNonNilMatch(members[1..]);
      FirstNonNilOfConcat(AllMatches(members[0]), MatchesOfAll(members[1..]));
    }
  }

  /** `errors.As` answers the very first match, nil or not. */
  lemma {:induction false} ErrorsAsIsFirstMatch(e: Option<Err>)
    ensures ErrorsAs(e) == if AllMatches(e) == [] then None else Some(AllMatches(e)[0])
    decreases e, 1
  {
    if e.Some? && e.value.Other? && e.value.asMethod.NoMatch? {
      match e.value.unwrap
      case NoUnwrap =>
      case One(inner) => ErrorsAsIsFirstMatch(inner);
      case Many(members) => ErrorsAsAnyIsFirstMatch(members);
    }
  }

  lemma {:induction false} ErrorsAsAnyIsFirstMatch(members: seq<Option<Err>>)
    ensures ErrorsAsAny(members) == if MatchesOfAll(members) == [] then None else Some(MatchesOfAll(members)[0])
    decreases members, 0
  {
    if members != [] {
      ErrorsAsIsFirstMatch(members[0]);
      ErrorsAsAnyIsFirstMatch(members[1..]);
    }
  }

  // ---------------------------------------------------------------- typed-nil pruning

  /** The tree with every typed-nil fiber node, and every `As` that answers nil, taken out. */
  function Prune(e: Option<Err>): Option<Err>
    decreases e, 1
  {
    if e.None? || e.value.NilFiber? then None
    else if e.value.Fiber? then e
    else
      var asMethod := if e.value.asMethod == Matches(None) then NoMatch else e.value.asMethod;
      var unwrap := match e.value.unwrap
        case NoUnwrap => NoUnwrap
        case One(inner) => One(Prune(inner))
        case Many(members) => Many(PruneAll(members));
      Some(e.value.(asMethod := asMethod, unwrap := unwrap))
  }

  function PruneAll(members: seq<Option<Err>>): seq<Option<Err>>
    decreases members, 0
  {
    if members == [] then [] else [Prune(members[0])] + PruneAll(members[1..])
  }

  /** What `errors.As` leaves in the target on the pruned tree is what `asFiberError` returns on the
      original, and on a pruned tree `errors.As` never reports a nil match. */
  lemma {:induction false} AsFiberErrorIsErrorsAsOnPrunedTree(e: Option<Err>)
    ensures ErrorsAs(Prune(e)) == match AsFiberError(e) case None => None case Some(f) => Some(Some(f))
    decreases e, 1
  {
    if e.Some? && e.value.Other? {
      match e.value.unwrap
      case NoUnwrap =>
      case One(inner) => AsFiberErrorIsErrorsAsOnPrunedTree(inner);
      case Many(members) => FirstFiberErrorIsErrorsAsOnPrunedMembers(members);
    }
  }

  lemma {:induction false} FirstFiberErrorIsErrorsAsOnPrunedMembers(members: seq<Option<Err>>)
    ensures ErrorsAsAny(PruneAll(members)) ==
            match FirstFiberError(members) case None => None case Some(f) => Some(Some(f))
    decreases members, 0
  {
    if members != [] {
      AsFiberErrorIsErrorsAsOnPrunedTree(members[0]);
      FirstFiberErrorIsErrorsAsOnPrunedMembers(members[1..]);
      assert PruneAll(members)[1..] == PruneAll(members[1..]);
    }
  }

  /** Exactly when plain `errors.As` would have lost the mapped status: the first match is a typed
      nil and a real fiber error comes after it. */
  lemma ErrorsAsLosesStatusIff(e: Option<Err>)
    ensures AsFiberError(e).Some? && ErrorsAs(e) != Some(AsFiberError(e))
      <==> AllMatches(e) != [] && AllMatches(e)[0].None?
           && exists i :: 0 <= i < |AllMatches(e)| && AllMatches(e)[i].Some?
  {
    AsFiberErrorIsFirstNonNilMatch(e);
    ErrorsAsIsFirstMatch(e);
    FirstNonNilIff(AllMatches(e));
  }

  lemma {:induction false} FirstNonNilIff(ms: seq<Option<FiberError>>)
    ensures FirstNonNil(ms).Some? <==> exists i :: 0 <= i < |ms| && ms[i].Some?
  {
    if ms != [] && ms[0].None? {
      FirstNonNilIff(ms[1..]);
      assert forall i :: 0 < i < |ms| ==> ms[i] == ms[1..][i-1];
      assert forall i :: 0 <= i < |ms[1..]| ==> ms[1..][i] == ms[i+1];
    }
  }

  // ---------------------------------------------------------------- what the ErrorHandler is given

  /** Whatever tree the handler returned, the error handed on can be stringified and carries the code
      of the tree's first real fiber error (500 when it holds none); its message survives with it, and
      an error that was already safe is handed on untouched. */
  lemma HandedErrorIsSafeAndKeepsItsStatus(raw: Err)
    ensures var norm := Normalize(Some(raw)).value;
            var handed := MakeSafe(norm);
            var first := FirstNonNil(AllMatches(Some(norm)));
            && IsSafeToStringify(handed)
            && StatusOf(handed) == (if first.Some? then first.value.code else INTERNAL_SERVER_ERROR)
            && (IsSafeToStringify(raw) ==> handed == raw)
            && (!IsSafeToStringify(norm) && first.Some? ==> handed == Fiber(first.value))
            && (!IsSafeToStringify(norm) && first.None? ==>
                 handed == Fiber(FiberError(INTERNAL_SERVER_ERROR, "internal error")))
            && (!IsTypedNil(raw) ==> norm == raw)
            && (IsTypedNil(raw) ==> handed == ERR_INTERNAL_SERVER_ERROR)
  {
    AsFiberErrorIsFirstNonNilMatch(Normalize(Some(raw)));
  }

  /** A plain `errors.As` on the handed error (what an ErrorHandler would call) can still land on a
      typed nil: exactly when the error is stringifiable as it stands, so nothing is substituted, and
      its first match is a typed nil. In every other case it finds what `asFiberError` found. */
  lemma HandedErrorStillShadowsIff(e: Err)
    requires !IsTypedNil(e)
    ensures var ms := AllMatches(Some(e));
            var shadowed := IsSafeToStringify(e) && ms != [] && ms[0].None?;
            && (ErrorsAs(Some(MakeSafe(e))) == Some(None) <==> shadowed)
            && (!shadowed && FirstNonNil(ms).Some? ==> ErrorsAs(Some(MakeSafe(e))) == Some(FirstNonNil(ms)))
  {
    AsFiberErrorIsFirstNonNilMatch(Some(e));
    ErrorsAsIsFirstMatch(Some(e));
  }

  // ---------------------------------------------------------------- what Fiber's default handler makes of it

  /** The first match for `*fiber.Error` in the tree is a typed nil. */
  predicate Shadowed(e: Err) {
    var ms := AllMatches(Some(e));
    ms != [] && ms[0].None?
  }

  /** Fiber's default ErrorHandler reads the code through whatever pointer `errors.As` leaves, and
      renders `err.Error()`. */
  predicate DefaultHandlerPanics(e: Err) {
    ErrorsAs(Some(e)) == Some(None) || Stringify(e).None?
  }

  function DefaultHandlerStatus(e: Err): int {
    match ErrorsAs(Some(e)) case Some(Some(f)) => f.code case _ => INTERNAL_SERVER_ERROR
  }

  /** It panics exactly on errors that cannot be stringified or are shadowed, and renders the mapped
      status of every other. */
  lemma DefaultHandlerPanicsIff(e: Err)
    requires !IsTypedNil(e)
    ensures DefaultHandlerPanics(e) <==> !IsSafeToStringify(e) || Shadowed(e)
    ensures !DefaultHandlerPanics(e) ==> DefaultHandlerStatus(e) == StatusOf(e)
  {
    AsFiberErrorIsFirstNonNilMatch(Some(e));
    ErrorsAsIsFirstMatch(Some(e));
  }

  /** `errors.Join(fmt.Errorf("w: %w", typedNil), fiber.NewError(400, ...))`: it can be stringified, so
      nothing is substituted for it, it maps to 400, and yet the default handler panics on it. */
  function ShadowedJoin(f: FiberError): Err {
    var wrapper := Other(false, Own("w: <nil>"), NoMatch, One(Some(NilFiber)));
    Other(false, Delegates, NoMatch, Many([Some(wrapper), Some(Fiber(f))]))
  }

  lemma ShadowedJoinPanicsTheDefaultHandler(f: FiberError)
    ensures var e := ShadowedJoin(f);
            IsSafeToStringify(e) && Shadowed(e) && StatusOf(e) == f.code
            && MakeSafe(e) == e && ErrorsAs(Some(MakeSafe(e))) == Some(None) && DefaultHandlerPanics(MakeSafe(e))
  {
    var e := ShadowedJoin(f);
    var wrapper, members := e.unwrap.members[0], e.unwrap.members;
    assert members[1..] == [Some(Fiber(f))] && members[1..][1..] == [];
    assert Stringify(wrapper.value) == Some("w: <nil>") && StringifyAll(members[1..]) == Some(f.message);
    assert StringifyAll(members).Some?;
    assert AsFiberError(wrapper) == AsFiberError(Some(NilFiber)) == None;
    assert FirstFiberError(members) == FirstFiberError(members[1..]) == Some(f);
    assert ErrorsAs(wrapper) == ErrorsAs(Some(NilFiber)) == Some(None);
    assert ErrorsAsAny(members) == Some(None);
    DefaultHandlerPanicsIff(e);
  }

  /** `errors.Join(fiber.NewError(code, message), typedNil)`: it panics when stringified, yet the
      handler receives the mapped code and message. */
  lemma JoinedTypedNilKeepsItsMapping(f: FiberError)
    ensures var joined := Other(false, Delegates, NoMatch, Many([Some(Fiber(f)), Some(NilFiber)]));
            !IsSafeToStringify(joined) && !IsTypedNil(joined) && MakeSafe(joined) == Fiber(f)
  {
    var members := [Some(Fiber(f)), Some(NilFiber)];
    assert members[1..] == [Some(NilFiber)];
    assert Stringify(NilFiber).None?;
    assert StringifyAll(members[1..]).None? && StringifyAll(members).None?;
    assert AsFiberError(members[0]) == Some(f);
    assert FirstFiberError(members) == Some(f);
  }
}
