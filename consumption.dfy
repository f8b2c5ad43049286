/** The value-level rules of the invocation verifier: how one record is checked
    against expected arguments (InvocationVerifier.withInternal), which record a
    verification consumes, and what replaying a remembered verification does
    to the record store. The class in module Verifier is proved against these
    functions; the lemmas here state what they mean. */
module Consumption {
  import opened Values

  /** One recorded call: its argument tuple, oldest argument first. */
  type Record = seq<Value>

  datatype Option<T> = None | Some(value: T)

  /** Why a verification failed; each constructor is one message of the source. */
  datatype Reason =
    | NoMoreInvoke                                 // "has not more invoke"
    | ArityMismatch(argCount: nat, recordCount: nat) // desc(args) against desc(record)
    | TypeMismatch(param: nat)                     // "parameter <param> type mismatch", 1-based
    | ValueMismatch(param: nat)                    // "parameter <param> mismatched", 1-based
    | NotInvokedWith                               // "has not invoke with ..."
    | WasInvokedWith                               // "was invoked with ..."
    | CountMismatch(wanted: int, found: nat)       // "times: <expected>" against "times: <actual>"

  /** The two kinds of error the verifier raises: a failed assertion
      (VerifyFailedError) and a misuse of the API (InvalidParameterException). */
  datatype Failure = VerifyFailed(reason: Reason) | InvalidParameter

  /** What a verification call ends with: it returns normally or it throws. */
  datatype Outcome = Ok | Fail(failure: Failure)

  /** A remembered consuming verification: its arguments and whether it was
      the in-order kind. */
  datatype Verification = Verification(parameters: seq<Value>, inOrder: bool)

  /** The outcome of one consuming step together with the records left after it. */
  datatype Step = Step(outcome: Outcome, rest: seq<Record>)

  /** The class check of withInternal: a matcher argument skips it, any other
      argument must have the recorded value's runtime class. */
  predicate ClassOk(expected: Value, actual: Value)
  {
    expected.Matcher? || ClassOf(expected) == ClassOf(actual)
  }

  /** A position of the argument tuple that passes both checks. */
  predicate ParamOk(check: MatchFunction, expected: Value, actual: Value)
  {
    ClassOk(expected, actual) && Matches(check, expected, actual)
  }

  /** The verdict on position `i` (0-based): the class check comes first. */
  function ParamVerdict(check: MatchFunction, expected: Value, actual: Value, i: nat): Option<Reason>
  {
    if !ClassOk(expected, actual) then Some(TypeMismatch(i + 1))
    else if !Matches(check, expected, actual) then Some(ValueMismatch(i + 1))
    else None
  }

  /** The first position at or after `i` that fails a check, scanning left
      to right; `|args|` when there is none. */
  function FirstFailing(check: MatchFunction, args: seq<Value>, rec: Record, i: nat): (k: nat)
    requires |args| == |rec| && i <= |args|
    ensures i <= k <= |args|
    ensures forall j | i <= j < k :: ParamOk(check, args[j], rec[j])
    ensures k < |args| ==> !ParamOk(check, args[k], rec[k])
    decreases |args| - i
  {
    if i == |args| then i
    else if !ParamOk(check, args[i], rec[i]) then i
    else FirstFailing(check, args, rec, i + 1)
  }

  /** Position `k` (0-based) is the first one of `rec` to fail a check, and
      `reason` reports it: a type mismatch when the class check fails, a value
      mismatch when only the match rule does. */
  predicate FailsFirstAt(check: MatchFunction, args: seq<Value>, rec: Record, k: nat, reason: Reason)
  {
    && k < |args| == |rec|
    && (forall j | 0 <= j < k :: ParamOk(check, args[j], rec[j]))
    && ((reason == TypeMismatch(k + 1) && !ClassOk(args[k], rec[k])) ||
        (reason == ValueMismatch(k + 1) && ClassOk(args[k], rec[k]) && !Matches(check, args[k], rec[k])))
  }

  /** withInternal's verdict on one record: the arity first, then every
      position in order. */
  function RecordCheck(check: MatchFunction, args: seq<Value>, rec: Record): (r: Option<Reason>)
    ensures r.None? <==> |rec| == |args| && forall j | 0 <= j < |args| :: ParamOk(check, args[j], rec[j])
    ensures r.Some? && r.value.ArityMismatch? <==> |rec| != |args|
    ensures r.Some? && !r.value.ArityMismatch? ==>
      (r.value.TypeMismatch? || r.value.ValueMismatch?) && r.value.param >= 1 &&
      FailsFirstAt(check, args, rec, r.value.param - 1, r.value)
  {
    if |rec| != |args| then Some(ArityMismatch(|args|, |rec|))
    else
      var k := FirstFailing(check, args, rec, 0);
      if k == |args| then None else ParamVerdict(check, args[k], rec[k], k)
  }

  /** A record that a consuming verification with `args` would take. */
  predicate Passes(check: MatchFunction, args: seq<Value>, rec: Record)
  {
    RecordCheck(check, args, rec).None?
  }

  /** A record that makes `without(args)` fail: same non-zero arity and every
      position matches. No class check is made here. */
  predicate InvokedWith(check: MatchFunction, args: seq<Value>, rec: Record)
  {
    |rec| == |args| && |args| > 0 &&
    forall j | 0 <= j < |args| :: Matches(check, args[j], rec[j])
  }

  /** The first record at or after `from` that passes, scanning oldest first. */
  function FirstMatch(check: MatchFunction, args: seq<Value>, recs: seq<Record>, from: nat): (r: Option<nat>)
    requires from <= |recs|
    ensures r.None? <==> forall k | from <= k < |recs| :: !Passes(check, args, recs[k])
    ensures r.Some? ==>
      && from <= r.value < |recs|
      && Passes(check, args, recs[r.value])
      && forall k | from <= k < r.value :: !Passes(check, args, recs[k])
    decreases |recs| - from
  {
    if from == |recs| then None
    else if Passes(check, args, recs[from]) then Some(from)
    else FirstMatch(check, args, recs, from + 1)
  }

  /** `List.remove(k)`: the record at `k` goes, the others keep their order. */
  function RemoveAt(recs: seq<Record>, k: nat): (r: seq<Record>)
    requires k < |recs|
    ensures |r| == |recs| - 1
    ensures forall j | 0 <= j < k :: r[j] == recs[j]
    ensures forall j | k <= j < |r| :: r[j] == recs[j + 1]
  {
    recs[..k] + recs[k + 1..]
  }

  /** `with(args)` on the records: the oldest passing record is consumed. */
  function ConsumeAny(check: MatchFunction, args: seq<Value>, recs: seq<Record>): Step
  {
    match FirstMatch(check, args, recs, 0)
    case Some(k) => Step(Ok, RemoveAt(recs, k))
    case None => Step(Fail(VerifyFailed(NotInvokedWith)), recs)
  }

  /** `withInOrder(args)` on the records: only the head is looked at. */
  function ConsumeHead(check: MatchFunction, args: seq<Value>, recs: seq<Record>): Step
  {
    if recs == [] then Step(Fail(VerifyFailed(NoMoreInvoke)), recs)
    else
      match RecordCheck(check, args, recs[0])
      case None => Step(Ok, recs[1..])
      case Some(reason) => Step(Fail(VerifyFailed(reason)), recs)
  }

  /** The consuming verification a remembered one stands for. */
  function Consume(check: MatchFunction, v: Verification, recs: seq<Record>): Step
  {
    if v.inOrder then ConsumeHead(check, v.parameters, recs)
    else ConsumeAny(check, v.parameters, recs)
  }

  /** How one consuming verification changes the record store. */
  type Transition = seq<Record> -> Step

  /** The transition of a remembered verification. */
  function Consumer(check: MatchFunction, v: Verification): Transition
  {
    recs => Consume(check, v, recs)
  }

  /** A transition that removes exactly one record when it succeeds and none
      when it fails. */
  ghost predicate ConsumesOne(step: Transition)
  {
    forall recs: seq<Record> {:trigger step(recs)} ::
      && (step(recs).outcome.Ok? ==> |step(recs).rest| == |recs| - 1)
      && (step(recs).outcome.Fail? ==> step(recs).rest == recs)
  }

  /** `k` further runs of a consuming verification; the first failure stops
      the run, keeping what earlier runs consumed. */
  function Replay(step: Transition, recs: seq<Record>, k: nat): Step
    decreases k
  {
    if k == 0 then Step(Ok, recs)
    else
      var s := step(recs);
      if s.outcome.Fail? then s else Replay(step, s.rest, k - 1)
  }

  /** `n` copies of one record. */
  function Copies(rec: Record, n: nat): (r: seq<Record>)
    ensures |r| == n && forall j | 0 <= j < n :: r[j] == rec
  {
    seq(n, _ => rec)
  }

  /** with(args) succeeds exactly when some record passes; it then removes the
      oldest passing record and keeps the others in order, and otherwise
      leaves the records as they were. */
  lemma ConsumeAnyTakesOldestMatch(check: MatchFunction, args: seq<Value>, recs: seq<Record>)
    ensures ConsumeAny(check, args, recs).outcome.Ok? <==>
            exists k | 0 <= k < |recs| :: Passes(check, args, recs[k])
    ensures ConsumeAny(check, args, recs).outcome.Ok? ==>
            exists k | 0 <= k < |recs| ::
              && Passes(check, args, recs[k])
              && (forall j | 0 <= j < k :: !Passes(check, args, recs[j]))
              && ConsumeAny(check, args, recs).rest == recs[..k] + recs[k + 1..]
    ensures ConsumeAny(check, args, recs).outcome.Fail? ==>
            ConsumeAny(check, args, recs) == Step(Fail(VerifyFailed(NotInvokedWith)), recs)
  {
    var m := FirstMatch(check, args, recs, 0);
    if m.Some? {
      var k := m.value;
      assert Passes(check, args, recs[k]);
    }
  }

  /** withInOrder(args) looks at the head record only: it fails on an empty
      store, succeeds exactly when the head passes (dropping it), and on
      failure reports the head's own verdict and keeps every record. */
  lemma ConsumeHeadInspectsOnlyHead(check: MatchFunction, args: seq<Value>, recs: seq<Record>)
    ensures recs == [] ==> ConsumeHead(check, args, recs) == Step(Fail(VerifyFailed(NoMoreInvoke)), recs)
    ensures recs != [] ==>
            (ConsumeHead(check, args, recs).outcome.Ok? <==> Passes(check, args, recs[0]))
    ensures recs != [] && Passes(check, args, recs[0]) ==>
            ConsumeHead(check, args, recs).rest == recs[1..]
    ensures recs != [] && !Passes(check, args, recs[0]) ==>
            ConsumeHead(check, args, recs) ==
              Step(Fail(VerifyFailed(RecordCheck(check, args, recs[0]).value)), recs)
  {
  }

  /** Every consuming verification removes exactly one record when it
      succeeds, and fails only as a verification failure that keeps every
      record. */
  lemma ConsumerConsumesOne(check: MatchFunction, v: Verification)
    ensures ConsumesOne(Consumer(check, v))
    ensures forall recs: seq<Record> {:trigger Consume(check, v, recs)} ::
      Consume(check, v, recs).outcome.Fail? ==> Consume(check, v, recs).outcome.failure.VerifyFailed?
  {
    forall recs: seq<Record>
      ensures Consume(check, v, recs).outcome.Ok? ==> |Consume(check, v, recs).rest| == |recs| - 1
      ensures Consume(check, v, recs).outcome.Fail? ==>
              Consume(check, v, recs).rest == recs && Consume(check, v, recs).outcome.failure.VerifyFailed?
    {
      if !v.inOrder {
        var m := FirstMatch(check, v.parameters, recs, 0);
        if m.Some? {
          assert Consume(check, v, recs).rest == RemoveAt(recs, m.value);
        }
      }
    }
  }

  /** Order sensitivity: on `[a, b]` where only `b` passes, withInOrder fails on
      `a` while with takes `b`. */
  lemma OrderSensitivity(check: MatchFunction, args: seq<Value>, a: Record, b: Record)
    requires !Passes(check, args, a) && Passes(check, args, b)
    ensures ConsumeHead(check, args, [a, b]).outcome.Fail?
    ensures ConsumeAny(check, args, [a, b]) == Step(Ok, [a])
  {
    assert FirstMatch(check, args, [a, b], 0) == Some(1);
    assert [a, b][..1] + [a, b][2..] == [a];
  }

  /** Replaying `a + b` times is replaying `a` times and then, unless that
      failed, `b` more times on what is left. */
  lemma {:induction false} ReplayAdditive(step: Transition, recs: seq<Record>, a: nat, b: nat)
    ensures Replay(step, recs, a + b) ==
            var s := Replay(step, recs, a);
            if s.outcome.Fail? then s else Replay(step, s.rest, b)
    decreases a
  {
    if a == 0 {
      assert Replay(step, recs, 0) == Step(Ok, recs);
    } else {
      var s := step(recs);
      if s.outcome.Ok? {
        assert Replay(step, recs, a) == Replay(step, s.rest, a - 1);
        assert Replay(step, recs, a + b) == Replay(step, s.rest, (a - 1) + b);
        ReplayAdditive(step, s.rest, a - 1, b);
      }
    }
  }

  /** After `i` successful runs, run `i + 1` is one more step on what is left. */
  lemma ReplayExtends(step: Transition, recs: seq<Record>, i: nat)
    requires Replay(step, recs, i).outcome.Ok?
    ensures Replay(step, recs, i + 1) == step(Replay(step, recs, i).rest)
  {
    ReplayAdditive(step, recs, i, 1);
    assert Replay(step, Replay(step, recs, i).rest, 1) == step(Replay(step, recs, i).rest);
  }

  /** Once a replay has failed, further runs change nothing. */
  lemma ReplayStopsAtFailure(step: Transition, recs: seq<Record>, i: nat, n: nat)
    requires i <= n && Replay(step, recs, i).outcome.Fail?
    ensures Replay(step, recs, n) == Replay(step, recs, i)
  {
    ReplayAdditive(step, recs, i, n - i);
  }

  /** With a transition that consumes one record per success, `k` successful
      runs consume exactly `k` records, and no run adds any. */
  lemma {:induction false} ReplayShrinks(step: Transition, recs: seq<Record>, k: nat)
    requires ConsumesOne(step)
    ensures Replay(step, recs, k).outcome.Ok? ==> |Replay(step, recs, k).rest| == |recs| - k
    ensures |Replay(step, recs, k).rest| <= |recs|
    decreases k
  {
    if k > 0 {
      var s := step(recs);
      if s.outcome.Ok? {
        ReplayShrinks(step, s.rest, k - 1);
      }
    }
  }

  /** A failing replay stopped at its first failure: some shorter replay
      succeeded, the next run failed, and the result is that run's. */
  lemma {:induction false} ReplayAbortsAtFirstFailure(step: Transition, recs: seq<Record>, k: nat)
    ensures Replay(step, recs, k).outcome.Fail? ==>
            exists j | 0 <= j < k ::
              && Replay(step, recs, j).outcome.Ok?
              && Replay(step, recs, k) == step(Replay(step, recs, j).rest)
    decreases k
  {
    if k > 0 {
      var s := step(recs);
      if s.outcome.Fail? {
        assert Replay(step, recs, 0) == Step(Ok, recs);
      } else if Replay(step, recs, k).outcome.Fail? {
        ReplayAbortsAtFirstFailure(step, s.rest, k - 1);
        var j :| 0 <= j < k - 1 &&
          Replay(step, s.rest, j).outcome.Ok? &&
          Replay(step, s.rest, k - 1) == step(Replay(step, s.rest, j).rest);
        assert Replay(step, recs, j + 1) == Replay(step, s.rest, j);
      }
    }
  }

  /** A successful with / withInOrder followed by `n - 1` replays is `n`
      consecutive runs of that verification. For `n >= 2` the replays are
      what `times(n)` performs; `times` refuses `n < 2`. */
  lemma TimesCompletesRepetition(check: MatchFunction, v: Verification, recs: seq<Record>, n: nat)
    requires n >= 1 && Consume(check, v, recs).outcome.Ok?
    ensures Replay(Consumer(check, v), Consume(check, v, recs).rest, n - 1) == Replay(Consumer(check, v), recs, n)
  {
    ReplayAdditive(Consumer(check, v), recs, 1, n - 1);
    assert Replay(Consumer(check, v), recs, 1) == Consume(check, v, recs);
  }

  /** Each record is consumed at most once: against `n` copies of a passing
      record, `n` runs of a verification succeed and use them all up, and run
      `n + 1` fails. */
  lemma {:induction false} ConsumptionUniqueness(check: MatchFunction, v: Verification, rec: Record, n: nat)
    requires Passes(check, v.parameters, rec)
    ensures Replay(Consumer(check, v), Copies(rec, n), n) == Step(Ok, [])
    ensures Replay(Consumer(check, v), Copies(rec, n), n + 1).outcome ==
            Fail(VerifyFailed(if v.inOrder then NoMoreInvoke else NotInvokedWith))
    decreases n
  {
    var step := Consumer(check, v);
    if n == 0 {
      assert Copies(rec, 0) == [];
      assert Replay(step, [], 1) == Consume(check, v, []);
    } else {
      var recs := Copies(rec, n);
      assert FirstMatch(check, v.parameters, recs, 0) == Some(0);
      assert RemoveAt(recs, 0) == recs[1..] == Copies(rec, n - 1);
      assert step(recs) == Step(Ok, Copies(rec, n - 1));
      ConsumptionUniqueness(check, v, rec, n - 1);
    }
  }

  /** Whatever with or withInOrder could consume also makes without fail,
      unless there are no arguments at all. */
  lemma ConsumableIsInvoked(check: MatchFunction, args: seq<Value>, rec: Record)
    requires |args| > 0 && Passes(check, args, rec)
    ensures InvokedWith(check, args, rec)
  {
  }

  /** The converse fails twice over: a zero-argument record is consumable but
      never makes without fail, and without skips the class check, so two
      equal-content arrays of different array classes, both well formed, make without fail
      although with would not take them. */
  lemma WithoutIsNotTheNegationOfWith(check: MatchFunction)
    ensures Passes(check, [], []) && !InvokedWith(check, [], [])
    ensures var objs := [Arr(Named("[Ljava.lang.Object;"), [])];
            var strs := [Arr(Named("[Ljava.lang.String;"), [])];
            && WellFormed(objs[0]) && WellFormed(strs[0])
            && InvokedWith(check, objs, strs) && !Passes(check, objs, strs)
  {
    var objs := [Arr(Named("[Ljava.lang.Object;"), [])];
    var strs := [Arr(Named("[Ljava.lang.String;"), [])];
    assert !ClassOk(objs[0], strs[0]);
  }
}
