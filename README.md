# Invocation verifier of testable-mock, modelled in Dafny

This project models `InvocationVerifier`, the engine that checks a test's
assertions against the recorded calls of one mock method. A verifier holds the
argument tuples of the calls not yet consumed, oldest first, and the last
consuming verification. Its assertions are:

- `with(args)` consumes the oldest call that matches;
- `withInOrder(args)` consumes the next call, and fails if that call does not match;
- `without(args)` fails if some call matches, and consumes nothing;
- `withTimes(n)` checks the number of calls left;
- `times(n)` replays the last consuming verification `n - 1` more times.

The files:

- `values.dfy` (module `Values`): argument values. These are literals with their
  runtime class, arrays, and matchers. The module also holds the per-argument
  match rule: a matcher predicate, deep array equality or `equals`.
  `Shape` is an independent reference definition of deep equality.
- `consumption.dfy` (module `Consumption`): the rules as functions on values.
  - `RecordCheck` is the arity, class and value check of `withInternal`.
  - `ConsumeAny` and `ConsumeHead` give the record store left after `with` and
    `withInOrder`. `Replay` gives the store left after the repetitions of `times`.
  - The lemmas state what these functions mean: which record is taken, that
    order is kept, that a failure changes nothing, and how many records a
    replay consumes.
- `verifier.dfy` (module `Verifier`): the class `InvocationVerifier`. Its
  methods change `records` and `lastVerification` in place, with the source's
  loops. Each method is proved against the functions of `Consumption`.
  The module also holds `desc` and the example chain of assertions.

Exceptions become an `Outcome`. `Fail(VerifyFailed(reason))` stands for
`VerifyFailedError`, and `Fail(InvalidParameter)` for
`InvalidParameterException`. A `Reason` names which message the source would
have produced.

Some consequences of the code's order of checks:

- `times(n)` with no remembered verification behaves like `withTimes(n)` for
  every `n`, including 0 and 1. The null check (line 108) comes before the
  `count < 2` guard (line 114).
- `withTimes` clears the remembered verification only when it succeeds. The
  count check throws at line 96, before the clearing at line 98.
- `without` fails only for a record of the same *non-zero* arity. The throw
  sits inside the loop over the positions (line 79), so `without()` with no
  arguments never fails.
- The code never checks for a missing record store. A method that was never
  called gives a null list from the context lookup (line 30), not an empty one
  (see "Left out").

## Model

| member | source | states |
|---|---|---|
| `Verifier.InvocationVerifier.constructor` | testable-core/src/main/java/com/alibaba/testable/core/matcher/InvocationVerifier.java:20-22 | a new verifier holds exactly the given records and has no remembered verification |
| `Verifier.InvocationVerifier.WithInternal` | testable-core/src/main/java/com/alibaba/testable/core/matcher/InvocationVerifier.java:128-146 | an empty store fails with "no more invoke" and is unchanged; otherwise the record at `order` is removed exactly when `RecordCheck` passes, and otherwise the store is unchanged and the failure carries `RecordCheck`'s reason |
| `Verifier.InvocationVerifier.With` | testable-core/src/main/java/com/alibaba/testable/core/matcher/InvocationVerifier.java:38-54 | outcome and new store are `ConsumeAny` of the old store (the oldest passing record is removed, or a failure leaves all); the remembered verification becomes `(args, unordered)` on success and is untouched on failure |
| `Verifier.InvocationVerifier.WithInOrder` | testable-core/src/main/java/com/alibaba/testable/core/matcher/InvocationVerifier.java:61-65 | outcome and new store are `ConsumeHead` of the old store; the remembered verification becomes `(args, in order)` on success and is untouched on failure |
| `Verifier.InvocationVerifier.Without` | testable-core/src/main/java/com/alibaba/testable/core/matcher/InvocationVerifier.java:72-87 | succeeds if and only if no record has the same non-zero arity with every position matching (no class check); otherwise fails with "was invoked with"; changes nothing |
| `Verifier.InvocationVerifier.WithTimes` | testable-core/src/main/java/com/alibaba/testable/core/matcher/InvocationVerifier.java:94-100 | succeeds if and only if the count equals the number of records; failure reports both counts; records never change; the remembered verification is cleared only on success |
| `Verifier.InvocationVerifier.Times` | testable-core/src/main/java/com/alibaba/testable/core/matcher/InvocationVerifier.java:107-126 | with nothing remembered it warns and acts as `WithTimes(count)` for every count; else a count below 2 is an invalid parameter that changes nothing; else outcome and store are `count - 1` replays of the remembered verification, which is cleared only on full success |
| `Values.Matches` | testable-core/src/main/java/com/alibaba/testable/core/matcher/InvocationVerifier.java:148-156 | definition: a matcher answers with its predicate on the recorded value, two arrays are compared deeply, anything else by equality; characterised by `LiteralMatchesIffSameShape` |
| `Values.DeepEquals` | testable-core/src/main/java/com/alibaba/testable/core/matcher/InvocationVerifier.java:152 | definition: two arrays are deeply equal when their lengths agree and their elements are pairwise deeply equal, array classes not compared; characterised by `DeepEqualsIffSameShape` |
| `Values.WellFormedClassTests` | testable-core/src/main/java/com/alibaba/testable/core/matcher/InvocationVerifier.java:149-151 | on values that stand for JVM objects, being a matcher is having the matcher class and being an array is having an array class, so the model's constructor tests are the source's `instanceof` and `isArray()` |
| `Consumption.InvokedWith` | testable-core/src/main/java/com/alibaba/testable/core/matcher/InvocationVerifier.java:73-83 | definition: a record makes `without` fail when it has the same non-zero arity and every position matches, with no class check |
| `Consumption.ConsumeAny` | testable-core/src/main/java/com/alibaba/testable/core/matcher/InvocationVerifier.java:38-53 | definition: `with` on the store removes the record `FirstMatch` finds, or fails with "has not invoke with" and keeps the store; characterised by `ConsumeAnyTakesOldestMatch` |
| `Consumption.ConsumeHead` | testable-core/src/main/java/com/alibaba/testable/core/matcher/InvocationVerifier.java:61-65 | definition: `withInOrder` (through `withInternal`) on the store fails on an empty store, drops the head when it passes `RecordCheck`, and otherwise fails with the head's verdict; characterised by `ConsumeHeadInspectsOnlyHead` |
| `Consumption.Replay` | testable-core/src/main/java/com/alibaba/testable/core/matcher/InvocationVerifier.java:117-123 | definition: `k` further runs of a consuming step, stopping at the first failure with the store that failure left; characterised by `ReplayAdditive`, `ReplayShrinks` and `ReplayAbortsAtFirstFailure` |
| `Verifier.Joined` | testable-core/src/main/java/com/alibaba/testable/core/matcher/InvocationVerifier.java:160-165 | definition: the parts separated by ", "; characterised by `JoinedSnoc` |
| `Consumption.ClassOk` | testable-core/src/main/java/com/alibaba/testable/core/matcher/InvocationVerifier.java:137 | definition: a matcher argument skips the class check, any other argument must have the recorded value's runtime class; used by `RecordCheck` and `FirstFailing` |
| `Consumption.ParamVerdict` | testable-core/src/main/java/com/alibaba/testable/core/matcher/InvocationVerifier.java:137-143 | definition: at one position the class check comes first (type mismatch, 1-based), then the match rule (value mismatch); `RecordCheck` proves that the verdict it reports is the first failing position's |
| `Consumption.Consume` | testable-core/src/main/java/com/alibaba/testable/core/matcher/InvocationVerifier.java:118-122 | definition: a remembered verification replays as `withInOrder` when it was in order and as `with` otherwise; used by `ConsumerConsumesOne` and by `Times` through `Consumer` |
| `Consumption.FirstFailing` | testable-core/src/main/java/com/alibaba/testable/core/matcher/InvocationVerifier.java:136-144 | the position found is at or after `i`, every position before it passes the class check and the match rule, and the position itself (when inside the tuple) fails one of them |
| `Consumption.RecordCheck` | testable-core/src/main/java/com/alibaba/testable/core/matcher/InvocationVerifier.java:133-144 | a record passes if and only if the arity agrees and every position passes the class check (skipped for matchers) and the match rule; an arity mismatch is reported exactly when the lengths differ; a type mismatch names a position whose class differs and a value mismatch one whose class agrees but value does not, all earlier positions passing |
| `Consumption.FirstMatch` | testable-core/src/main/java/com/alibaba/testable/core/matcher/InvocationVerifier.java:39-48 | finds nothing exactly when no record from `from` on passes; otherwise finds a passing record with no passing record before it |
| `Consumption.RemoveAt` | testable-core/src/main/java/com/alibaba/testable/core/matcher/InvocationVerifier.java:145 | removing index `k` shortens the store by one and keeps every other record in its order |
| `Consumption.ConsumeAnyTakesOldestMatch` | testable-core/src/main/java/com/alibaba/testable/core/matcher/InvocationVerifier.java:38-53 | `with` succeeds if and only if some record passes; it then removes the lowest-index passing record and keeps the rest in order; on failure the store is unchanged and the reason is "has not invoke with" |
| `Consumption.ConsumeHeadInspectsOnlyHead` | testable-core/src/main/java/com/alibaba/testable/core/matcher/InvocationVerifier.java:61-65 | `withInOrder` fails with "no more invoke" on an empty store, succeeds if and only if the head passes (leaving the tail), and on failure keeps the store and reports the head's own verdict |
| `Consumption.ConsumerConsumesOne` | testable-core/src/main/java/com/alibaba/testable/core/matcher/InvocationVerifier.java:128-146 | a consuming verification (`with` or `withInOrder`) removes exactly one record on success and none on failure, and its failures are verification failures |
| `Consumption.OrderSensitivity` | testable-core/src/main/java/com/alibaba/testable/core/matcher/InvocationVerifier.java:38-65 | on `[a, b]` where only `b` passes, `withInOrder` fails but `with` succeeds leaving `[a]` |
| `Consumption.ReplayAdditive` | testable-core/src/main/java/com/alibaba/testable/core/matcher/InvocationVerifier.java:117-123 | `a + b` replays are `a` replays then, unless they failed, `b` more on what is left |
| `Consumption.ReplayExtends` | testable-core/src/main/java/com/alibaba/testable/core/matcher/InvocationVerifier.java:117-123 | after `i` successful replays, replay `i + 1` is one more consuming step on the records left |
| `Consumption.ReplayStopsAtFailure` | testable-core/src/main/java/com/alibaba/testable/core/matcher/InvocationVerifier.java:117-123 | once a replay has failed, the remaining iterations change neither the outcome nor the records |
| `Consumption.ReplayShrinks` | testable-core/src/main/java/com/alibaba/testable/core/matcher/InvocationVerifier.java:117-125 | with a step that consumes one record per success, `k` successful replays remove exactly `k` records, and no replay grows the store |
| `Consumption.ReplayAbortsAtFirstFailure` | testable-core/src/main/java/com/alibaba/testable/core/matcher/InvocationVerifier.java:117-123 | a failing replay is some successful shorter replay followed by one failing step, and the store keeps the removals made before the failure |
| `Consumption.TimesCompletesRepetition` | testable-core/src/main/java/com/alibaba/testable/core/matcher/InvocationVerifier.java:107-125 | for every `n >= 2` that `times` accepts, a successful `with`/`withInOrder` followed by `times(n)` (its `n - 1` replays) leaves the same store and outcome as `n` runs of that verification; at `n = 1` the identity still holds but `times(1)` throws instead (line 114) |
| `Consumption.ConsumptionUniqueness` | testable-core/src/main/java/com/alibaba/testable/core/matcher/InvocationVerifier.java:128-145 | against `n` copies of a passing record, `n` runs succeed and consume all of them, and run `n + 1` fails ("no more invoke" in order, "has not invoke with" otherwise) |
| `Consumption.ConsumableIsInvoked` | testable-core/src/main/java/com/alibaba/testable/core/matcher/InvocationVerifier.java:72-83 | a record that `with` could consume with at least one argument also makes `without` fail |
| `Consumption.WithoutIsNotTheNegationOfWith` | testable-core/src/main/java/com/alibaba/testable/core/matcher/InvocationVerifier.java:72-87 | the converse fails: a zero-argument record is consumable but never makes `without` fail, and equal-content arrays of different array classes (both values a JVM could hold) make `without` fail although `with` rejects them |
| `Values.DeepEqualsIffSameShape` | testable-core/src/main/java/com/alibaba/testable/core/matcher/InvocationVerifier.java:151-152 | deep array equality holds exactly when the two values are equal once array classes are forgotten |
| `Values.DeepEqualsIsEquivalence` | testable-core/src/main/java/com/alibaba/testable/core/matcher/InvocationVerifier.java:152 | deep equality is reflexive, symmetric and transitive |
| `Values.LiteralMatchesIffSameShape` | testable-core/src/main/java/com/alibaba/testable/core/matcher/InvocationVerifier.java:148-156 | for a non-matcher expected value the match rule holds exactly when both values have the same shape (arrays deeply, other values by equality) |
| `Values.MatchesOwnValue` | testable-core/src/main/java/com/alibaba/testable/core/matcher/InvocationVerifier.java:148-156 | every non-matcher value, arrays included, matches itself |
| `Values.DeepArrayExample` | testable-core/src/main/java/com/alibaba/testable/core/matcher/InvocationVerifier.java:151-152 | two distinct arrays holding 1, 2, 3 match; 1, 2, 3 against 1, 2, 4 does not |
| `Verifier.JoinedSnoc` | testable-core/src/main/java/com/alibaba/testable/core/matcher/InvocationVerifier.java:160-165 | appending a part to the joined list adds ", " and that part (just the part when the list was empty) |
| `Verifier.Desc` | testable-core/src/main/java/com/alibaba/testable/core/matcher/InvocationVerifier.java:158-167 | the description is ": " followed by the parts joined with ", " |
| `Verifier.ChainScenario` | testable-core/src/main/java/com/alibaba/testable/core/matcher/InvocationVerifier.java:38-100 | on `[("a",1), ("b",2), ("a",1)]`: `withInOrder("a",1)` succeeds, `without("a",1)` fails, `with("a",1)` succeeds leaving `[("b",2)]`, and `withTimes(1)` succeeds |

## Left out

- `verifyInvoked` (lines 29-31) is left out. It looks up the record list in
  per-thread context state (`MockContextUtil`). The constructor takes the
  records directly instead. A method that was never called gives a null list
  in the source, and that case is not modelled.
- The store is a `seq` field, not the list the context still shares. So the
  model does not show that removals are also visible through the test
  context's own reference to the list.
- The usage warning of `times` is not modelled. The source prints it and looks
  up the caller's stack location (lines 110-111). The model only sets the
  ghost flag `warned`.
- Java reflection and `Object` semantics are abstracted. `getClass()` is the
  class name carried by a value. `equals` on non-arrays is equality of values.
  `Arrays.deepEquals` is `DeepEquals`.
- A matcher's `matchFunction` is the caller-supplied predicate
  `MatchFunction`, given to the verifier at construction. Its body is not
  modelled.
- `null` is not modelled, because `Value` has no null. In the source:
  - A null expected argument throws `NullPointerException`. In `withInternal`
    this happens at line 137, and in `without` at line 151.
  - A recorded null against a non-matcher argument throws at line 137 in
    `withInternal`.
  - A recorded null against a matcher is passed to the matcher's predicate
    (line 150) without an exception.
  - In `without`, a recorded null throws at line 151 when the argument is an
    array. For any other non-matcher argument, `equals(null)` returns false
    (line 154) and nothing is thrown.
- Primitive arrays cast to `Object[]` (`ClassCastException` at line 152) are
  not modelled.
- `with` catches `AssertionError`, and the model assumes `VerifyFailedError` is
  one. A failing `withInternal` therefore only makes `with` try the next
  record.
- Exact message strings are not modelled. Each failure carries a `Reason`
  instead. `Desc` works on arguments that are already rendered to strings,
  because `toString` is not modelled.
- `Value` also admits values with no JVM counterpart, such as a literal of an
  array class. `WellFormed` singles out the ones that stand for JVM objects.
  The operations are not restricted to them, and `WellFormedClassTests` shows
  the model's tests agree with the source's class tests on them.
- Concurrency is not modelled. This file has none.
