# Verified model of the observability library

This project models, in Dafny, the parts of the observability library whose behaviour cannot be
read off one function body, and proves what they promise for every input, every middleware stack and
every interleaving. `dafny verify dfyconfig.toml` checks all of it.

- **The HTTP chain** (`HttpChain`, `HttpChainTheorems`, `HttpFinalizer`, `ActiveRequests`, over error trees from
  `ErrorTree`). A request is a mutable object holding status, finalizer slots, the context's span and
  ownership mark, and a log of everything the outside world sees. The middleware are methods on it,
  with deferred steps in Go's order, each proved against one recursive meaning `Exec` of a stack. The
  theorems are by induction over arbitrary stacks around a handler that returns any error tree or
  panics: an error is rendered exactly once and every observer reports what the client got; each
  server span is described and then ended exactly once; one access line per logging middleware; a
  panic leaves unchanged; the in-flight gauge equals the requests in flight under any interleaving.
- **The gRPC chain** (`GrpcChain`). Here the context is a value handed down, so a span ender above the
  telemetry interceptor never sees the span it started. Every span reports the outcome of exactly what
  it covers, and the exact number of ends of a span the chain was entered with is given.
- **The sensitive-name matcher** (`WordMatch`, `Tokens`, `SensitiveNames`, `SensitiveMeaning`,
  `SensitiveDefaults`, `SensitiveShortcuts`): the non-overlapping scan, camelCase splitting, plural
  folding and the shortcut lookups, with the answer told by a name's words alone, proved for any list
  meeting stated facts, which are then discharged for the library's own list.
- **The instrument cache** (`InstrumentCache`, `HistogramKey`): load, create and load-or-store as
  separate steps of any number of concurrent calls, and the derived string key.
- **Rounding to int64** (`RoundToInt64`), over doubles as significand times power of two, with
  roundTiesToAway of section 4.3.1 of IEEE 754-2008.
- **Text bounds** (`TextBounds`): three truncations and the head-and-tail cap, over bytes, with
  well-formedness as in sections 3 and 4 of RFC 3629.
- **Redaction and attributes** (`RedactionTree`, `SpanOverlay`, `FlattenAttributes`): recursive
  payload redaction, redaction of span attributes, bounded flattening, with the paths and keys they
  use spelled step by step (numbers as in `Decimals`).
- **Loggers** (`LogFields`): the argument parser and its inverse, the adapter shim and the standard
  logger with their derived children.
- **Context and propagation** (`AttrBag`, `BaggageHops`, `TenantSanitizers`): the attribute bag, written
  in place and copied on derivation; tenant baggage over any hops; three tenant sanitizers.
- **The collector singleton** (`Collector`): start, failure, stop and retry over a resettable once.

Code that changes state in the library is a class or a loop here, proved against a function whose
properties the lemmas state. Fiber, grpc-go and the OpenTelemetry SDK appear only as assumptions: `Next`
and a chained handler run the rest of the stack, the application's ErrorHandler is an arbitrary
function that may render, fail or panic, application middleware turn outcomes into arbitrary
outcomes, and number formats, hashes, patterns, header codecs and Go's `%v` are arbitrary functions with
the stated properties. Fiber's default ErrorHandler, which is not part of the repository, is assumed to
render the code `errors.As` finds, read through the pointer found, with the text of `err.Error()`.

## Where the code and its documentation differ

- `tracing/processor.go:79-85` promises that span and log carry an identical `tenant.id`. They do not for
  "NULL", for texts holding a tab or a non-ASCII character, or for a value only stripping brings under
  the cap. `TenantSanitizers.SanitizersAgreeIff` gives the exact condition.
- `middleware/error_handling.go:39-46` says a middleware between the observers and the finalizer that
  returns its own error makes the ErrorHandler run twice. With an observer above it, it does not
  (`HttpFinalizer.ResponseIsRenderedOnceAndReportedAsSent`): the observer drops that error. The second
  run comes exactly from errors that leave the whole stack (`ErrorHandlerRunsExactly`).
- `middleware/error_handling.go:204-210` has every observer report the resolved outcome. A middleware
  between observer and finalizer that writes a status changes what the client gets and not what is
  reported (`StatusWrittenAboveIsNotReported`); reported and sent agree exactly when no such write
  changes the decided status.
- `middleware/error_handling.go:86-104` promises that a mapped status survives Fiber's default
  ErrorHandler. It substitutes a safe error only when the error cannot be stringified. A stringifiable
  error whose first match is a typed nil is handed on as it is, the default handler panics on it, and
  the client gets a 500 (`ShadowedStatusIsLost`); `ClientGetsMappedStatusIff` gives the exact condition.
  Without a finalizer the prediction of `middleware/logging.go:640-643` holds exactly for errors that
  can be stringified and are not shadowed (`DefaultHandlerSendsPredictionIff`).
- The word-boundary scan resumes after each occurrence, so it can miss a bounded occurrence of a pattern
  such as "a_a". It never misses one exactly for patterns without a word border
  (`WordMatch.ScanNeverMissesIff`); no default name has one.
- The map lookups are described as a fast path. They also add answers, exactly for capitalized spellings
  that split a short default name: "pAn" lowers to "pan", while its tokens are "p" and "an"
  (`SensitiveShortcuts.WhatTheShortcutsAddToTheDefaults`).
- The three truncations agree on valid text, and beyond it exactly as `TextBounds.TruncationsAgreeIff`
  says; a stray byte can make all three differ.
- `observability.go:59-61` says the bag is copied to avoid aliasing. An empty bag with spare capacity is
  not: two contexts derived from it share its array, and the second derivation changes the first one's
  bag (`AttrBag.SiblingsShareTheirBag`). `AttrBag.ContextWithSpanAttributes` isolates exactly otherwise.
- `middleware/logging.go:406-407` speaks of the 500 the outer recover middleware will render. The client
  gets a 500 exactly when the ErrorHandler answers the recovered error with one
  (`HttpFinalizer.RecoveredAboveObservers`).
- `grpcmiddleware/telemetry.go:103-123` takes a stringifiable error for a safe one. The status lookup, which
  belongs to grpc-go and is an arbitrary function here that may panic, can still raise a panic that
  leaves the interceptor (`GrpcChain.TelemetryPanicsIff`).
- Redaction with hash rules is not idempotent, except as `RedactionTree.RedactingTwiceIff` says.
- The histogram key separates name and boundaries by a colon the name may itself contain, and prints
  negative zero apart from zero (`HistogramKey.CollisionsIff`, `HistogramKey.NegativeZeroSplitsTheKey`).
- gRPC injection removes nothing: a field the sender's context leaves empty reads, after extraction, as
  whatever the outgoing metadata already held (`BaggageHops.GrpcRoundTrip`).

## Model

| member | source | states |
|---|---|---|
| ErrorTree.AsFiberErrorIsFirstNonNilMatch | middleware/error_handling.go:129-158 | on every error tree the walk answers the first non-nil fiber error in errors.As order |
| ErrorTree.AsFiberErrorIsErrorsAsOnPrunedTree | middleware/error_handling.go:117-158 | it is what errors.As leaves on the tree with typed-nil fiber nodes, and `As` methods answering nil, taken out |
| ErrorTree.SafeToStringifyIff | log/nil.go:46-88 | an error can be stringified iff it is no typed nil and no `Error` method called on the way panics |
| ErrorTree.ErrorsAsIsFirstMatch | middleware/error_handling.go:117-128 | errors.As itself stops at the first match, nil or not |
| ErrorTree.ErrorsAsLosesStatusIff | middleware/error_handling.go:117-128 | a plain errors.As would lose a mapped status iff the first match is a typed nil and a real one follows |
| ErrorTree.HandedErrorIsSafeAndKeepsItsStatus | middleware/error_handling.go:80-107 | what the ErrorHandler is given can always be stringified and holds the code, and the message, of the tree's first real fiber error; a safe error is handed on untouched |
| ErrorTree.HandedErrorStillShadowsIff | middleware/error_handling.go:80-107 | a plain errors.As on the handed error finds nil iff the error is stringifiable and its first match is a typed nil |
| ErrorTree.DefaultHandlerPanicsIff | middleware/error_handling.go:88-104 | Fiber's default ErrorHandler panics exactly on errors that cannot be stringified or are shadowed by a typed nil, and renders the mapped status of every other |
| ErrorTree.ShadowedJoinPanicsTheDefaultHandler | middleware/error_handling.go:86-107 | the input: a wrapped typed nil joined ahead of a fiber error is stringifiable, maps to that error's code, is handed on as it is, and makes the default handler panic |
| ErrorTree.JoinedTypedNilKeepsItsMapping | middleware/error_handling.go:80-104 | a mapped error joined with a typed nil, which panics when stringified, reaches the handler with its code and message |
| HttpChain.Request.Next | middleware/error_handling.go:54-59 | runs any stack around any handler outcome, leaving exactly the state and outcome of the stack's meaning |
| HttpChain.Request.ResolveHTTPResponse | middleware/error_handling.go:216-242 | once finalized: the decided status, nothing for the chain, the original error for telemetry, and a diagnosis of any discarded error; otherwise the normalized error and the status it maps to |
| HttpChain.Request.WithHTTPLogging | middleware/logging.go:298-337 | finishes one access line on return and on panic and passes on what the resolution leaves |
| HttpChain.Request.WithTelemetry | middleware/telemetry.go:359-520 | count-in, span start and ownership mark, then on return or panic: description, duration, span end, count-out, in that order |
| HttpChain.Request.EndSpanOfRequest | middleware/telemetry.go:853-865 | ends the context's span, failed first when there is a cause, unless telemetry owns it |
| HttpChain.Request.EndTracingSpans | middleware/telemetry.go:839-850 | ends the span after the chain, as failed on a panic, and normalizes the error |
| HttpChain.Request.InvokeErrorHandlerSafely | middleware/error_handling.go:171-191 | runs the ErrorHandler once; failing or panicking leaves a plain 500, and a panic is reported |
| HttpChain.Request.WithHTTPErrorHandling | middleware/error_handling.go:54-115 | renders the safe error, records original error and final status, returns nil; lets a panic through with nothing finalized |
| HttpChainTheorems.OneAccessLineEachAndCounterBalanced | middleware/logging.go:298-337 | for every stack and outcome, panic included: one access line per logging middleware that is not skipped, one duration per metered telemetry middleware, and as many count-outs as count-ins |
| HttpChainTheorems.EverySpanIsDescribedThenEndedOnce | middleware/telemetry.go:478-520 | every server span is ended exactly once and only after its description, with any number of span enders on either side; no outside span is touched |
| HttpChainTheorems.PanicLeavesUnchanged | middleware/logging.go:406-413 | the same panic value leaves the stack and every observer it crosses reports a 500 |
| HttpChainTheorems.EndsOfEnteredSpan | middleware/telemetry.go:839-865 | how often a span the chain was entered with is ended: never if any telemetry owns the request, else once by every span ender, on a return and on a panic |
| HttpChainTheorems.FailsOfEnteredSpan | middleware/telemetry.go:839-865 | without tracing telemetry and application middleware, such a span is marked failed once by every span ender, with the panic as the cause, iff the handler panicked |
| HttpFinalizer.FinalizerDecides | middleware/error_handling.go:54-115 | whatever middleware but another finalizer lie below it, the finalizer returns nil, fixes the status and runs the ErrorHandler once iff an error arrived; a panic passes with nothing finalized |
| HttpFinalizer.AroundFinalizer | middleware/error_handling.go:54-242 | for any middleware around one finalizer and any handler outcome: what reaches Fiber and the status by then, told without telemetry |
| HttpFinalizer.ErrorHandlerRunsExactly | middleware/error_handling.go:27-46 | for any stack with one finalizer and any handler outcome: the ErrorHandler runs once iff an error reached the finalizer, and once more iff an error left the stack |
| HttpFinalizer.ObserversReportDecided | middleware/error_handling.go:204-242 | with no panic raised above the finalizer and no observer below it, every observer reports the decided status and, as the cause, the error the handler returned, the generic 500 error in place of a typed nil, or none without an error; a middleware in between may write another status |
| HttpFinalizer.ResponseIsRenderedOnceAndReportedAsSent | middleware/error_handling.go:27-242 | with an observer outermost besides: nothing reaches Fiber, the ErrorHandler ran once iff an error reached the finalizer, its rendering or a plain 500 is the decided status, and the reported status is the client's iff the statuses written above the finalizer leave the decided one |
| HttpFinalizer.StatusWrittenAboveIsNotReported | middleware/error_handling.go:216-236 | the input: a 304 written between observer and finalizer reaches the client while the access line says 200 |
| HttpFinalizer.RogueAboveTheObserversRendersAgain | middleware/error_handling.go:36-46 | a middleware above the observers that returns its own error makes the ErrorHandler run on a request that succeeded |
| HttpFinalizer.FinalizerHandsASafeError | middleware/error_handling.go:80-112 | for every stack around one finalizer the ErrorHandler is handed exactly one error, which can be stringified and maps as the original does, and is the original where that is safe; a panic of the handler is reported once |
| HttpFinalizer.DiscardedErrorIsDiagnosed | middleware/error_handling.go:216-236 | an error that an observer drops because the response is decided is diagnosed |
| HttpFinalizer.DefaultHandlerKeepsMappedStatusIff | middleware/error_handling.go:80-104 | behind the finalizer the default handler serves the status an error maps to iff the error is not both stringifiable and shadowed, or maps to 500 anyway |
| HttpFinalizer.ClientGetsMappedStatusIff | middleware/error_handling.go:80-115 | the same of what the client gets, for every stack of that kind; the only other status it can get is 500 |
| HttpFinalizer.ShadowedStatusIsLost | middleware/error_handling.go:86-107 | the input: a mapped but shadowed error is served, and reported, as a 500 |
| HttpFinalizer.ObserversPredict | middleware/logging.go:627-644 | without a finalizer each observer reports the status the error maps to and passes the error on normalized and unrendered |
| HttpFinalizer.PredictionIsWhatIsSent | middleware/logging.go:627-644 | for every ErrorHandler, that prediction is what Fiber's dispatch sends iff the handler answers the normalized error with the status it maps to |
| HttpFinalizer.DefaultHandlerSendsPredictionIff | middleware/logging.go:640-643 | with the default handler and no finalizer, reported and sent agree iff the error, if any, is stringifiable and not shadowed; any other panics out of the dispatch |
| HttpFinalizer.RecoveredAboveObservers | middleware/logging.go:406-413 | a panic recovered above the observers: all report a 500, and the client gets one iff the ErrorHandler answers the recovered error with it |
| HttpFinalizer.RecoveredStatusIsNotReported | middleware/logging.go:406-413 | the input: with the default handler and a panic recovered as an error mapped to another status, the log says 500 and the client gets the other |
| HttpFinalizer.ObserversPredictRecovered | middleware/error_handling.go:47-53 | a panic recovered between observers and finalizer: nothing was finalized, and every observer reports the status the recovered error maps to |
| HttpFinalizer.RecoveredBelowObservers | middleware/error_handling.go:47-53 | that status is the client's iff the ErrorHandler, run by Fiber's own dispatch, answers the error with it |
| ActiveRequests.ChainCountsInThenOut | middleware/telemetry.go:809-820 | one metering middleware counts its request in before the handler is entered and out after it was left, once each, whatever happens below |
| ActiveRequests.UnmeteredChainNeverCounts | middleware/telemetry.go:809-813 | without the instrument nothing is counted, and the handler runs once all the same |
| ActiveRequests.GaugeEqualsRequestsInFlight | middleware/telemetry.go:801-820 | under every schedule of single atomic additions the gauge of a method equals its requests counted in and not yet out |
| ActiveRequests.InFlightIsBracketed | middleware/telemetry.go:801-820 | that number lies between the requests whose handler is running and those begun and not over |
| ActiveRequests.GaugeUnderAnyInterleaving | middleware/telemetry.go:421-427 | both for any number of requests through any such stacks, at every moment of any interleaving |
| GrpcChain.NormalizedIsSafe | grpcmiddleware/telemetry.go:124-134 | the normalized error can always be stringified, is unchanged iff the original could, and normalizing again changes nothing |
| GrpcChain.Call.Handle | grpcmiddleware/telemetry.go:228-233 | runs any interceptor stack under a context, leaving exactly the state and outcome of the stack's meaning |
| GrpcChain.Call.WithTelemetryInterceptor | grpcmiddleware/telemetry.go:212-352 | starts an owned span in a new context; describes and measures on a return only; ends it deferred on a return and a panic alike |
| GrpcChain.Call.EndTracingSpansInterceptor | grpcmiddleware/telemetry.go:401-426 | on a return only, ends the unowned span of its own context, guarded by the once when an end state travels with it |
| GrpcChain.Call.EndOnce | grpcmiddleware/telemetry.go:157-163 | the once lets the first end through and no other |
| GrpcChain.ExecOutcome | grpcmiddleware/telemetry.go:212-352 | contexts, spans and events never influence what the interceptors return |
| GrpcChain.TelemetryReturnsSafeErrors | grpcmiddleware/telemetry.go:103-134 | an active telemetry interceptor never returns an error that panics when stringified |
| GrpcChain.TelemetryPanicsIff | grpcmiddleware/telemetry.go:319-343 | it raises a panic of its own exactly when it needs the status of a normalized error whose lookup panics |
| GrpcChain.EverySpanReportsItsOwnOutcome | grpcmiddleware/telemetry.go:299-351 | for every stack and outcome each span is ended exactly once by the interceptor that started it, after being described with the status of the outcome of its own part of the stack, or with nothing when a panic crossed it or came of looking that status up |
| GrpcChain.SpanTellsWhatIsReturned | grpcmiddleware/telemetry.go:299-351 | that outcome is what running the stack from that interceptor on returns, under any context |
| GrpcChain.TelemetryPassesTheOutcome | grpcmiddleware/telemetry.go:265-351 | through telemetry and span enders in any order: success, a panic and a stringifiable error come out unchanged; any other error as the Unknown status iff an active telemetry interceptor is crossed |
| GrpcChain.DurationsAreMeasured | grpcmiddleware/telemetry.go:369-398 | each active metered interceptor whose call returned records one duration under the code of what it returned, innermost first |
| GrpcChain.OwnedEndsNothingElse | grpcmiddleware/telemetry.go:145-149 | under an owned context no span ender ends a span from outside |
| GrpcChain.EndsOfEnteredSpan | grpcmiddleware/telemetry.go:401-426 | how often a span the chain was entered with is ended: never when owned, at most once through an end state, once per returning span ender above the first tracing interceptor when only the span is in the context |
| WordMatch.MatchesWordBoundary | redaction/sensitive_fields.go:371-405 | the scanning loop answers what the scan's specification does, the empty pattern included |
| WordMatch.ScanIsSound | redaction/sensitive_fields.go:371-405 | a positive answer always comes from an occurrence between word boundaries |
| WordMatch.ScanIsCompleteFrom | redaction/sensitive_fields.go:371-405 | for a pattern without a word border, no bounded occurrence at or after the scan's start is missed |
| WordMatch.BorderedPatternIsMissed | redaction/sensitive_fields.go:396-401 | every pattern with a word border has a field on which its bounded occurrence is missed |
| WordMatch.ScanNeverMissesIff | redaction/sensitive_fields.go:371-405 | the scan is right on every field iff the pattern has no word border |
| WordMatch.MatchesIff | redaction/sensitive_fields.go:369-405 | for such patterns the answer is exactly whether the pattern occurs between word boundaries |
| Tokens.SplitOfJoin | redaction/sensitive_fields.go:195-201 | splitting undoes joining by underscores |
| Tokens.TokenStandsBounded | redaction/sensitive_fields.go:195-201 | every token of a name stands in it between word boundaries |
| Tokens.SublistStandsBounded | redaction/sensitive_fields.go:369-405 | a contiguous run of a name's tokens is a bounded occurrence in it |
| Tokens.BoundedIsSublist | redaction/sensitive_fields.go:369-405 | a bounded occurrence of one joined name in another is a contiguous run of its tokens |
| Tokens.JoinedMatchIsSublist | redaction/sensitive_fields.go:369-405 | the word-boundary match of underscore-joined names is contiguous token-sublist inclusion |
| SensitiveNames.NormalizeFieldName | redaction/sensitive_fields.go:207-232 | the builder loop writes an underscore before exactly the letters that start a word, then lowers |
| SensitiveNames.NormalizeWithoutUpper | redaction/sensitive_fields.go:203-232 | a name without uppercase is its own normalization |
| SensitiveNames.CamelPairIsSplit | redaction/sensitive_fields.go:203-232 | a lowercase word followed by a capitalized one, or by an acronym, is split between them |
| SensitiveNames.AcronymPairIsSplit | redaction/sensitive_fields.go:203-232 | an acronym followed by a capitalized word is split before that word's capital |
| SensitiveNames.SingularizeTokens | redaction/sensitive_fields.go:234-264 | the in-place folding keeps both spellings as tokens and reports the folded name only when something folded |
| SensitiveNames.MatchesDefaultFields | redaction/sensitive_fields.go:266-287 | the loops compute the default match whose meaning SensitiveMeaning gives |
| SensitiveNames.MatchesExtraFields | redaction/sensitive_fields.go:289-308 | an extra name matches iff the word-boundary scan finds it, or its tokens joined by underscores, in a candidate |
| SensitiveNames.IsSensitiveField | redaction/sensitive_fields.go:319-367 | the function with all its shortcuts computes the sensitivity whose meaning SensitiveMeaning gives |
| SensitiveNames.ExtraNamesNeverHide | redaction/sensitive_fields.go:310-367 | extra names never turn a sensitive field non-sensitive, although they change the spelling the defaults are matched against |
| SensitiveNames.MoreExtraNamesNeverHide | redaction/sensitive_fields.go:310-367 | sensitivity is monotone in the set of extra names |
| SensitiveNames.FoldAllKeepsDefaults | redaction/sensitive_fields.go:234-264 | a default found in the narrowly folded spelling is found in the fully folded one or in the name itself |
| SensitiveNames.WhatTheShortcutsCanAdd | redaction/sensitive_fields.go:319-367 | on any good lists the map lookups add nothing but lowered default names that are short or whose pieces spell an exempt name |
| SensitiveNames.ShortcutsChangeNothing | redaction/sensitive_fields.go:319-367 | without uppercase they add nothing |
| SensitiveNames.EmptyName | redaction/sensitive_fields.go:319-340 | the empty name is sensitive iff it is among the extra names, and never through the full path |
| SensitiveDefaults.ListsAreGood | redaction/sensitive_fields.go:11-121 | the library's own lists meet every fact the theorems ask for |
| SensitiveDefaults.ExtraNamesNeverHideADefault | redaction/sensitive_fields.go:319-367 | both main theorems on the library's lists, with no side condition left |
| SensitiveDefaults.EveryDefaultIsAlwaysFound | redaction/sensitive_fields.go:371-405 | the scan never misses a default name on any field |
| SensitiveDefaults.ShortNamesAreTokens | redaction/sensitive_fields.go:162-179 | every short default is one token |
| SensitiveDefaults.ExemptNamesAreGood | redaction/sensitive_fields.go:110-121 | no exempt name is a default, as it stands or folded |
| SensitiveShortcuts.PiecesMatchNothing | redaction/sensitive_fields.go:342-367 | no default name matches the pieces a short default name falls apart into, nor their singulars |
| SensitiveShortcuts.NeverExempt | redaction/sensitive_fields.go:106-121 | no spelling of a default name is exempt once its capitals are split |
| SensitiveShortcuts.WhatTheShortcutsAdd | redaction/sensitive_fields.go:319-367 | for every non-empty name and any extra names, exactly what the lookups add: capitalized spellings that split a short default name, unless an extra name matches anyway |
| SensitiveShortcuts.ListsAreSeparable | redaction/sensitive_fields.go:11-179 | the library's lists meet every fact that theorem asks for |
| SensitiveShortcuts.WhatTheShortcutsAddToTheDefaults | redaction/sensitive_fields.go:319-367 | on the library's lists and for every name: the lookups decide iff the lowered name is a short default and splitting changes it |
| SensitiveShortcuts.UppercaseShortName | redaction/sensitive_fields.go:319-340 | the input, on the library's lists: only the lookup finds "pAn", while both find "PAN" |
| SensitiveMeaning.SensitiveIff | redaction/sensitive_fields.go:319-367 | for every name, extra names and good lists: sensitive iff the lowered name, its split spelling or its singular is a default, an extra name equals it but for case or is found in it, or its joined tokens are not exempt and a short default is one of its tokens or folded tokens, or another default stands between word boundaries in one of its three spellings |
| SensitiveMeaning.SensitiveTokensIff | redaction/sensitive_fields.go:266-405 | a lowercase name of underscore-joined tokens is sensitive iff it is not exempt and a short default is a token, or another default is a run of tokens, of it or of its folding |
| SensitiveMeaning.CompoundIsSensitive | redaction/sensitive_fields.go:266-287 | a default name with any tokens before and after it is sensitive, unless that is an exempt name |
| SensitiveMeaning.PluralIsSensitive | redaction/sensitive_fields.go:234-264 | so is the plural of a one-word default |
| SensitiveMeaning.ExemptIsNotSensitive | redaction/sensitive_fields.go:106-121 | no default name makes an exempt name sensitive |
| SensitiveMeaning.UserPassword | redaction/sensitive_fields.go:266-287 | on the library's lists, "user_password" and "user_passwords" are sensitive |
| HistogramKey.ValidateBuckets | metrics/metrics.go:669-677 | accepts exactly the strictly increasing lists without NaN |
| HistogramKey.AcceptedIff | metrics/metrics.go:375-400 | sorting and validating accepts a list iff it holds no NaN and no two equal boundaries |
| HistogramKey.SortSorts | metrics/metrics.go:375-400 | the sorted copy is sorted, NaN first |
| HistogramKey.SortIsUnique | metrics/metrics.go:375-400 | two sorted lists of the same accepted boundaries are the same list |
| HistogramKey.HistogramCacheKey | metrics/metrics.go:429-444 | the loop over the formatted boundaries builds name, colon and comma-separated list, or the bare name |
| HistogramKey.SomeFormatIsGood | metrics/metrics.go:438-443 | an injective format without commas and colons exists, so the results about such formats are about something |
| HistogramKey.KeysAgreeIff | metrics/metrics.go:428-444 | for non-empty accepted lists and any names, equal keys iff equal name and equal boundaries in any order |
| HistogramKey.AcceptedSetsAreMultisets | metrics/metrics.go:669-677 | on accepted lists equal contents and equal boundary sets are one notion |
| HistogramKey.CollisionsIff | metrics/metrics.go:428-444 | the exact condition under which two different requests share a key; colon-free names never do |
| HistogramKey.NegativeZeroSplitsTheKey | metrics/metrics.go:428-444 | negative zero is the same boundary as zero but another key |
| InstrumentCache.MetricsFactory.LoadOrStore | metrics/metrics.go:375-426 | publishes only under a free key and answers what is published afterwards |
| InstrumentCache.MetricsFactory.GetOrCreate | metrics/metrics.go:375-426 | run alone, a call is three steps of the concurrent protocol; it succeeds iff the request is valid and its key is published or the meter does not refuse, and then returns what is published, a new instrument of its own if nothing was |
| InstrumentCache.StepKeepsInv | metrics/metrics.go:375-426 | one step of any call keeps the invariant and replaces nothing published |
| InstrumentCache.RunKeepsInv | metrics/metrics.go:375-426 | every schedule keeps it |
| InstrumentCache.CallsSucceedUnlessRefused | metrics/metrics.go:375-426 | in every schedule from an empty cache a call fails only if its request is invalid or the meter refused it; a valid, unrefused one is done once it was picked three times, an invalid one fails when it is picked |
| InstrumentCache.GotIsMadeForTheKey | metrics/metrics.go:375-426 | a successful call gets an instrument made for its key from some call's request: its own request, if no other call asks for the key |
| InstrumentCache.SuccessfulCallsHoldThePublishedInstrument | metrics/metrics.go:375-426 | in every interleaving and forever after, a successful call holds the published instrument of its key |
| InstrumentCache.SameInstrumentIffSameKey | metrics/metrics.go:295-426 | two successful calls return the same instrument iff their keys agree, for counters, gauges and histograms |
| InstrumentCache.SameCounterIffSameName | metrics/metrics.go:295-334 | two successful counter calls return the same instrument iff the names agree, and a counter call fails only if refused |
| InstrumentCache.SameHistogramIffSameNameAndBoundaries | metrics/metrics.go:375-444 | with colon-free names: same instrument iff same name and same boundary set, in whatever order given |
| InstrumentCache.ColonNamesCollide | metrics/metrics.go:428-444 | with a colon in a name two different valid requests share a key |
| RoundToInt64.RoundIsNearest | metrics/recorder.go:143-162 | the rounding is the nearest integer with ties away from zero, and the only one |
| RoundToInt64.AcceptsIffNearestFits | metrics/recorder.go:143-162 | a finite double is accepted iff its nearest integer is an int64, and converts to that integer |
| RoundToInt64.AcceptedDoubles | metrics/recorder.go:143-162 | the accepted doubles are exactly those from -2^63 to 2^63-1024; the conversion never overflows; NaN and infinities are rejected |
| RoundToInt64.Monotone | metrics/recorder.go:143-162 | conversion is monotone |
| RoundToInt64.NoDoubleJustBelowTwo63 | metrics/recorder.go:143-150 | no double lies strictly between 2^63-1024 and 2^63 |
| RoundToInt64.LargeDoublesAreIntegers | metrics/recorder.go:143-150 | from 2^53 on rounding changes nothing |
| RoundToInt64.ConvertedMaxInt64WouldOverflow | metrics/recorder.go:143-150 | why the bound is 2^63 itself: comparing with the converted largest int64 would let an overflow through |
| Collector.CollectorState.EnsureMetricsCollector | telemetrycore/metrics_collector.go:49-108 | the new package state and the error, for nil telemetry, no meter, nil factory and usable |
| Collector.CollectorState.StopMetricsCollector | telemetrycore/metrics_collector.go:132-143 | closes the channel of a running collector, forgets the error and gives a fresh once |
| Collector.StepKeepsInv | telemetrycore/metrics_collector.go:49-143 | each call keeps: once spent iff started or an error is held, one open channel iff started and else none, no channel closed twice |
| Collector.EveryHistoryKeepsInv | telemetrycore/metrics_collector.go:49-143 | so does every history of calls |
| Collector.UsableEnsureAlwaysLeavesOneRunning | telemetrycore/metrics_collector.go:49-143 | whatever failed or stopped before, a usable Ensure leaves one collector running and no error; a Stop leaves none |
| Collector.RunsIffLastUsableEnsureAfterLastStop | telemetrycore/metrics_collector.go:49-143 | a collector runs iff some usable Ensure came after the last Stop |
| Collector.HoldsErrorIff | telemetrycore/metrics_collector.go:49-143 | an init error is held iff an Ensure without a factory came while nothing ran and no usable Ensure since, and then nothing runs; a Stop does not clear it |
| Collector.NothingToCollect | telemetrycore/metrics_collector.go:49-71 | a nil telemetry, or one without a meter, changes nothing |
| TextBounds.ValidIffEncoded | tracing/otel.go:1182-1195 | the validity all caps rest on: a text is valid iff it is the encoding, by the table of section 3 of RFC 3629, of code points that are no surrogates |
| TextBounds.TruncateUserAgent | middleware/helpers.go:85-105 | the forward scan cuts after the last character that fits |
| TextBounds.TruncateUTF8 | tracing/otel.go:1182-1195 | the backward trim stops at the first valid prefix |
| TextBounds.DeletingLeavesBoundary | middleware/logging.go:578-584 | cutting a text and deleting invalid bytes leaves its longest valid prefix within the cut, when that prefix reaches the cut or a character follows it |
| TextBounds.TruncationsAgreeIff | middleware/helpers.go:85-105 | for every text and cap, forward scan, backward trim and clip give the same text iff it fits, its longest valid prefix reaches the cap, or a character follows that prefix; the backward trim always gives that prefix |
| TextBounds.TruncationsAgree | middleware/helpers.go:85-105 | on valid text they always agree: on the longest prefix on a boundary within the cap, at most 3 bytes short of it |
| TextBounds.TruncationsDifferOnInvalidText | tracing/otel.go:1182-1195 | at every cap above 1, the 256 of the code included, one stray byte makes the three give three answers |
| TextBounds.ToValidIsValid | middleware/logging.go:578-584 | deleting invalid bytes leaves valid text |
| TextBounds.CappedMessageKeepsHeadAndTail | tracing/otel.go:980-989 | a message that fits is kept; any other is cut to fit and valid whatever came in, and a valid one keeps a prefix and a suffix around the marker, each at most 3 bytes short of its half |
| RedactionTree.FindAction | tracing/obfuscation.go:121-147 | the loop over the rules answers the specified action, and none without a redactor |
| RedactionTree.FirstMatchingRuleDecides | tracing/obfuscation.go:121-147 | a rule that matches the path, if it names one, and the field, by its own pattern or else by the sensitive-name matcher, decides if no rule before it does |
| RedactionTree.NoMatchingRuleNoAction | tracing/obfuscation.go:121-147 | without a rule that matches there is no action |
| RedactionTree.ObfuscateStructFields | tracing/obfuscation.go:188-229 | the loops over fields, in any order, and items compute the recursive redaction, and a plain copy without a redactor |
| RedactionTree.RedactingTwiceIff | tracing/obfuscation.go:152-229 | for all rules, paths and trees, redacting twice is redacting once iff every hash written is a fixed point of hashing its own printed form |
| RedactionTree.RedactionIsIdempotent | tracing/obfuscation.go:188-229 | so with mask and drop rules it always is |
| RedactionTree.RedactedEqualIff | tracing/obfuscation.go:152-229 | for all rules, two payloads redact to the same tree iff they differ only below keys some rule matches, and hash alike at the hashed ones |
| RedactionTree.UntouchedPlacesSurvive | tracing/obfuscation.go:188-229 | a place no rule matches on the way to, by the dotted and indexed path its steps spell, keeps its shape, and every leaf there its value |
| RedactionTree.MatchedPlacesAreHidden | tracing/obfuscation.go:152-229 | a place whose spelled path and key some rule matches holds the mask or the hash, or is gone, and nothing is left below it |
| Decimals.DigitsReadBack | tracing/otel.go:1158-1164 | an index in a path or key reads back as that index and has no leading zero |
| RedactionTree.HashingTwiceDiffersIff | tracing/obfuscation.go:152-168 | the input: one hashed field is changed by a second pass unless its hash is such a fixed point |
| SpanOverlay.RedactAttributesByKey | tracing/processor.go:121-152 | the loop redacts each attribute by its full key and last segment, in order, leaving dropped ones out |
| SpanOverlay.Span.SetAttributes | tracing/processor.go:45-65 | the last value of each key wins |
| SpanOverlay.Span.OnStart | tracing/processor.go:30-65 | writes base then bag, redacted when there is a redactor |
| SpanOverlay.RedactionCommutesWithOverlay | tracing/processor.go:45-65 | for every key and mask, hash or drop, with duplicates: the span holds the redaction of the override's last value if present, else of the base's |
| SpanOverlay.WhatTheSpanShows | tracing/processor.go:30-152 | for every key, with or without a redactor: the last value the bag, else the base, gives it is shown as the mask under a mask action, as its hash under a hash action and as it is without an action; under a drop action, or without a value, the span keeps what it had |
| SpanOverlay.FieldNameIff | tracing/processor.go:121-134 | the field name of a key is what follows its last dot, or the whole key if it has no dot or ends in one |
| SpanOverlay.OverlayThenRedact | tracing/processor.go:45-65 | redacting after the overlay gives the same span |
| AttrBag.ContextValue.Clone | observability.go:62-77 | the copy holds the same bag, in storage of its own unless the bag is empty, when it keeps the array it had |
| AttrBag.ContextValue.Append | observability.go:279-298 | appends in place while there is room, else into a larger array |
| AttrBag.ContextValue.MergeAttr | observability.go:279-298 | one round writes over the key in place or appends it |
| AttrBag.ContextValue.MergeLastWins | observability.go:279-298 | the loops compute the last-wins merge, in the given array exactly as long as the bag fits it |
| AttrBag.ContextWithSpanAttributes | observability.go:259-272 | returns the merged bag in a fresh context; it changes nothing that existed, for every argument, iff the parent's bag is absent, non-empty or without room; otherwise it writes the first new key into the shared array |
| AttrBag.SiblingsShareTheirBag | observability.go:59-77 | the input: of two derivations from an empty bag with room, the second changes the bag the first one shows |
| AttrBag.DeriveChain | observability.go:259-272 | after any chain of derivations from no bag every context on the way still shows exactly the calls before it |
| AttrBag.MergeComposes | observability.go:279-298 | merging twice is merging the concatenation |
| AttrBag.LookupFindsLastWritten | middleware/tenant.go:87-95 | first-match lookup returns the last value written |
| AttrBag.KeysKeepFirstPositions | observability.go:279-298 | keys stay unique and keep the position of their first insertion |
| AttrBag.BagAfterAnyCalls | observability.go:259-298 | after any calls from an empty bag: unique keys in first-insertion order, each with the last value written |
| FlattenAttributes.Sink.FlattenAttributes | tracing/otel.go:1108-1136 | the recursion appending through the pointer computes the specified list |
| FlattenAttributes.Sink.FlattenEntry | tracing/otel.go:1147-1156 | one map entry is flattened under its dotted key |
| FlattenAttributes.Sink.FlattenMap | tracing/otel.go:1147-1156 | the loop over a map, in any given order |
| FlattenAttributes.Sink.FlattenSlice | tracing/otel.go:1158-1164 | the loop over a slice, by index |
| FlattenAttributes.EmitsFirstLeaves | tracing/otel.go:1108-1177 | for every tree and order: exactly the first 128 leaves above the depth limit, after what was there |
| FlattenAttributes.EmittedAreSpelledLeaves | tracing/otel.go:1108-1164 | each emitted leaf stands under the key its own steps spell, as in "user.roles.0", with "item" before a bare index and "value" for a bare scalar; an attribute is among the leaves iff some steps, fewer than 32 where the depth is cut, lead to its value and spell its key |
| FlattenAttributes.CutLosesIffDeep | tracing/otel.go:1108-1112 | the depth limit loses nothing from a shallow tree and something from any other |
| FlattenAttributes.EmitsEveryLeafIff | tracing/otel.go:1108-1177 | never more than 128 attributes; one per non-null leaf under its dotted path iff no leaf is deeper than 31 and there are at most 128 |
| FlattenAttributes.LeavesIgnoreOrder | tracing/otel.go:1147-1156 | the leaves are the same multiset for every map iteration order |
| FlattenAttributes.EmissionIgnoresOrder | tracing/otel.go:1108-1177 | how many attributes are emitted never depends on the order, and with at most 128 leaves above the depth limit neither does which |
| LogFields.Fields | log/log.go:284-322 | the argument loop computes the specified fields: typed fields, pairs, a dangling key, an odd value |
| LogFields.AnyFields | log/log.go:324-338 | widens each field to one argument |
| LogFields.WidenedFieldsComeBack | log/log.go:284-338 | normalizing widened fields followed by any arguments gives those fields, then the arguments' own |
| LogFields.FieldsReadFrontToBack | log/log.go:284-322 | the first argument is a field, the key of the next one, or the value of "!BADKEY", a last string too; the rest is read on its own |
| LogFields.PairsComeBack | log/log.go:284-322 | keys and values given in turn come back as fields, whatever follows |
| LogFields.NoArgumentIsLost | log/log.go:284-322 | every argument but a nil field pointer shows up in some field |
| LogFields.UniversalShim.Log | log/adapt.go:133-150 | forwards group, bound fields and own arguments in that order |
| LogFields.UniversalShim.With | log/adapt.go:155-167 | a child bound to the normalized arguments; the parent is unchanged |
| LogFields.UniversalShim.WithGroup | log/adapt.go:174-191 | a child with the sanitized group added, or the same binding for an empty name |
| LogFields.ShimChain | log/adapt.go:155-191 | any chain of derivations binds what its specification says |
| LogFields.ChainsBindInOrder | log/adapt.go:155-191 | a chain binds what its two halves bind, in order: the fields of each With and each sanitized group that is not blank |
| LogFields.SinkSeesGroupBoundOwn | log/adapt.go:133-191 | what the sink receives normalizes to the group, every bound field in order, then the caller's own; a dangling bound key never swallows the next argument |
| LogFields.GoLogger.With | log/go_logger.go:81-100 | a child bound to the normalized arguments |
| LogFields.GoLogger.WithGroup | log/go_logger.go:107-128 | a child with the sanitized group added |
| LogFields.GoLogger.RenderAll | log/go_logger.go:160-187 | the rendering loop prints every named field once, in order |
| LogFields.GoLogger.HydrateLine | log/go_logger.go:133-155 | assembles level, groups, bound and own fields, and message |
| LogFields.GoLogger.Log | log/go_logger.go:62-76 | one line for an enabled valid level; for any other level an error line that carries that level's number; else nothing |
| LogFields.DecimalReadsBack | log/go_logger.go:56-71 | the number attached to an undefined level reads back as that level |
| LogFields.GoChain | log/go_logger.go:81-128 | any chain of derivations binds the same as the shim's |
| LogFields.LineReads | log/go_logger.go:62-187 | the whole line: printed iff the level, or error for an undefined one, is within the ceiling; level name, groups, shown fields with the number of an undefined level last, escaped message |
| LogFields.FieldsRenderOneByOne | log/go_logger.go:160-187 | fields show one by one in order as key=value, none without a key, and "[REDACTED]" for a sensitive key |
| LogFields.ValuesShowAs | log/go_logger.go:206-237 | text shows escaped, a primitive as it prints, and each kind of nil as a nil |
| LogFields.JoinPutsSeparatorBetween | log/go_logger.go:133-187 | groups, fields and parts are joined by a separator between any two neighbours and nowhere else |
| LogFields.SanitizeReplacesControls | log/go_logger.go:13-22 | LF, CR, tab and NUL become a backslash and a letter where they stand, and nothing else changes |
| LogFields.LoggersAgree | log/adapt.go:133-191 | after the same chain and call, the shim's sink normalizes to the group field and exactly the fields the standard logger renders |
| LogFields.EveryLineIsControlFree | log/go_logger.go:133-187 | whatever was bound or logged, no line holds LF, CR, tab or NUL |
| LogFields.SanitizedIsControlFree | log/go_logger.go:20-22 | a sanitized text holds none of them |
| LogFields.SecretsDoNotShow | log/go_logger.go:160-187 | the rendering does not depend on values under sensitive keys |
| BaggageHops.ExtractionKeepsTenant | tracing/otel.go:1214-1302 | whatever values the carrier holds, the tenant after extraction is the context's own; every other member comes from the carrier if it had baggage, and the trace if its parent is valid, else they stay |
| BaggageHops.StripAndRestoreAreBothNeeded | tracing/otel.go:1214-1302 | what each half alone would leave: no tenant, or the carrier's choice |
| BaggageHops.TenantSurvivesEveryHop | tracing/otel.go:1214-1302 | over any sequence of extractions the tenant never changes and the rest is the last carried baggage |
| BaggageHops.Metadata.MovePairs | tracing/otel.go:1331-1366 | moves each pair of metadata keys in turn |
| BaggageHops.Metadata.InjectGRPCContext | tracing/otel.go:1331-1347 | injects, then moves the written spellings to the gRPC ones in place |
| BaggageHops.Metadata.ExtractGRPCContext | tracing/otel.go:1350-1366 | extracts from a remapped copy and leaves the incoming metadata as it was |
| BaggageHops.RemappedBack | tracing/otel.go:1331-1366 | moving there and back restores each of the three headers, or uncovers the lowercase one that was there |
| BaggageHops.GrpcRoundTrip | tracing/otel.go:1331-1366 | inject then extract returns each header the sender wrote, with that one value; a header left empty reads as the stale values the metadata held |
| BaggageHops.ReceiverGetsSenderContext | tracing/otel.go:1331-1366 | without stale values, and if the header parses back to the sender's baggage, a receiver gets the sender's trace and whole baggage except the tenant, and keeps its own tenant |
| TenantSanitizers.NormalizeRequestID | middleware/helpers.go:187-210 | the builder loop keeps the first 128 printable characters of the trimmed text, trimmed again |
| TenantSanitizers.RequestIDIsBoundedAndSafe | middleware/helpers.go:165-219 | for every input at most 128 characters, all printable, without outer spaces, and idempotent; a printable text is only trimmed and cut |
| TenantSanitizers.UnprintableIsSkipped | middleware/helpers.go:187-219 | a character that is not printable counts as if it were not there |
| TenantSanitizers.SanitizersAgreeIff | tracing/processor.go:79-101 | exactly when log and span carry the same tenant |
| TenantSanitizers.RpcAgreesWithSpanIff | grpcmiddleware/telemetry.go:652-667 | exactly when the gRPC interceptor and the baggage seed carry the same tenant |
| TenantSanitizers.LogTextOfSpanText | middleware/helpers.go:187-210 | both other paths' filtering leaves the span path's text alone iff it holds nothing they filter |
| TenantSanitizers.StrippedFits | tracing/processor.go:86-101 | stripping never lengthens what trimming leaves |
| TenantSanitizers.PlainIdentifier | middleware/tenant.go:62-73 | a printable identifier without outer spaces passes all three, up to their null checks, if it has at most 128 characters, and none otherwise |
| TenantSanitizers.UppercaseNullDiverges | tracing/processor.go:90-94 | "NULL" is a tenant to the log and none to the span |

## Left out

- Exporters, TLS, environment variables, resource and provider construction: I/O and SDK calls.
- `sqlobs`, `redisobs`, `messagingobs`, `httpobs`, option structs, builders and constants: each is settled by one branch.
- HttpChain.Request.WithHTTPLogging: does not model the cause an application records through the context, which fills the line's error when the chain has none, nor levels, route shapes, problem fields, request ids and durations.
- HttpChain.Request.WithTelemetry: does not model the collector error put on the span, attribute contents, inbound trace extraction or the identity-filtered start context.
- HttpChain.Request.Next: stacks with several finalizers run, but the theorems about finalizers are for one, as registered; an application middleware acts on the outcome and status of its own `Next`; one that never calls it appears as a shorter stack with another handler, and a status written before the call as part of the arbitrary status the handler leaves.
- Access lines of requests refused before routing: the middleware are only modelled as skipping them.
- GrpcChain.Call.WithTelemetryInterceptor: does not model request ids, attribute contents or the collector error; the status lookup is an arbitrary function of the error, which may panic.
- The gRPC logging and client interceptors: one call around the handler each.
- InstrumentCache.MetricsFactory.GetOrCreate: does not model the error for a foreign value found in the cache, which no code of the library stores; the float variants repeat the same protocol.
- RedactionTree.ObfuscateStructFields: patterns, hashing and `%v` are arbitrary functions, and encoding to and from JSON is not modelled.
- FlattenAttributes.Sink.FlattenAttributes: keys are not truncated and leaf values are opaque; truncation itself is in TextBounds.
- SensitiveNames.IsSensitiveField: letters are ASCII, and any other character is non-alphanumeric.
- TenantSanitizers.NormalizeRequestID: characters are Unicode code points, so bytes that are not valid UTF-8 are outside the model.
- LogFields.GoLogger.Log: values are rendered by an arbitrary function; panicking loggers and their guards, `Sync` and the clock are not modelled.
- BaggageHops.Metadata.InjectGRPCContext: headers are a map from spelling to values; the W3C header syntax is an arbitrary codec.
- Collector.CollectorState.EnsureMetricsCollector: the goroutine and its ticker are represented by the channel that stops them; calls are serialized, as the mutex makes them.
