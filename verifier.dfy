/** The verification engine bound to the recorded calls of one mock method
    (InvocationVerifier). It owns the records left to verify and the last
    consuming verification, and each assertion updates them in place. */
module Verifier {
  import opened Values
  import opened Consumption

  class InvocationVerifier {
    /** The recorded calls not yet consumed, oldest first. */
    var records: seq<Record>
    /** The last successful with / withInOrder, replayed by Times. */
    var lastVerification: Option<Verification>
    /** Set once Times has printed its usage warning. */
    ghost var warned: bool
    /** The predicates behind the matcher arguments. */
    const check: MatchFunction

    /** Binds a verifier to the recorded calls of one mock method. */
    constructor (records: seq<Record>, check: MatchFunction)
      ensures this.records == records && this.check == check
      ensures lastVerification == None && !warned
    {
      this.records := records;
      this.check := check;
      lastVerification := None;
      warned := false;
    }

    /** Checks the record at `order` against `args` (arity, then class and
        value position by position) and removes it when every check passes. */
    method WithInternal(args: seq<Value>, order: nat) returns (r: Outcome)
      requires records == [] || order < |records|
      modifies this`records
      ensures old(records) == [] ==> r == Fail(VerifyFailed(NoMoreInvoke)) && records == old(records)
      ensures old(records) != [] ==>
        var verdict := RecordCheck(check, args, old(records)[order]);
        && (verdict.None? ==> r == Ok && records == RemoveAt(old(records), order))
        && (verdict.Some? ==> r == Fail(VerifyFailed(verdict.value)) && records == old(records))
    {
      if records == [] {
        return Fail(VerifyFailed(NoMoreInvoke));
      }
      var record := records[order];
      if |record| != |args| {
        return Fail(VerifyFailed(ArityMismatch(|args|, |record|)));
      }
      var i := 0;
      while i < |args|
        invariant 0 <= i <= |args|
        invariant FirstFailing(check, args, record, i) == FirstFailing(check, args, record, 0)
      {
        if !ClassOk(args[i], record[i]) {
          return Fail(VerifyFailed(TypeMismatch(i + 1)));
        }
        if !Matches(check, args[i], record[i]) {
          return Fail(VerifyFailed(ValueMismatch(i + 1)));
        }
        i := i + 1;
      }
      records := RemoveAt(records, order);
      r := Ok;
    }

    /** Expects some remaining call with `args`: consumes the oldest one that
        passes WithInternal and remembers the verification. */
    method With(args: seq<Value>) returns (r: Outcome)
      modifies this`records, this`lastVerification
      ensures Step(r, records) == ConsumeAny(check, args, old(records))
      ensures lastVerification == if r.Ok? then Some(Verification(args, false)) else old(lastVerification)
    {
      var found := false;
      var i := 0;
      while i < |records|
        invariant i <= |records|
        invariant records == old(records) && lastVerification == old(lastVerification)
        invariant forall k | 0 <= k < i :: !Passes(check, args, records[k])
      {
        var attempt := WithInternal(args, i);
        if attempt.Ok? {
          assert FirstMatch(check, args, old(records), 0) == Some(i);
          found := true;
          break;
        }
        i := i + 1;
      }
      if !found {
        return Fail(VerifyFailed(NotInvokedWith));
      }
      lastVerification := Some(Verification(args, false));
      r := Ok;
    }

    /** Expects the next remaining call to have `args`: consumes it and
        remembers the verification. */
    method WithInOrder(args: seq<Value>) returns (r: Outcome)
      modifies this`records, this`lastVerification
      ensures Step(r, records) == ConsumeHead(check, args, old(records))
      ensures lastVerification == if r.Ok? then Some(Verification(args, true)) else old(lastVerification)
    {
      r := WithInternal(args, 0);
      if r.Fail? {
        return;
      }
      lastVerification := Some(Verification(args, true));
    }

    /** Expects no remaining call with `args`; consumes nothing. */
    method Without(args: seq<Value>) returns (r: Outcome)
      ensures r.Ok? <==> forall k | 0 <= k < |records| :: !InvokedWith(check, args, records[k])
      ensures r.Fail? ==> r == Fail(VerifyFailed(WasInvokedWith))
    {
      var idx := 0;
      while idx < |records|
        invariant idx <= |records|
        invariant forall k | 0 <= k < idx :: !InvokedWith(check, args, records[k])
      {
        var rec := records[idx];
        if |rec| == |args| {
          var i := 0;
          while i < |rec|
            invariant i <= |rec|
            invariant |rec| > 0 ==> i < |rec|
            invariant forall j | 0 <= j < i :: Matches(check, args[j], rec[j])
          {
            if !Matches(check, args[i], rec[i]) {
              break;
            }
            if i == |rec| - 1 {
              return Fail(VerifyFailed(WasInvokedWith));
            }
            i := i + 1;
          }
        }
        idx := idx + 1;
      }
      r := Ok;
    }

    /** Expects exactly `expectedCount` remaining calls; consumes nothing and
        forgets the last verification on success. */
    method WithTimes(expectedCount: int) returns (r: Outcome)
      modifies this`lastVerification
      ensures r.Ok? <==> expectedCount == |records|
      ensures r.Fail? ==> r == Fail(VerifyFailed(CountMismatch(expectedCount, |records|)))
      ensures lastVerification == if r.Ok? then None else old(lastVerification)
    {
      if expectedCount != |records| {
        return Fail(VerifyFailed(CountMismatch(expectedCount, |records|)));
      }
      lastVerification := None;
      r := Ok;
    }

    /** Expects `count` consecutive calls like the last verification: replays
        it `count - 1` more times. Without a last verification it warns and
        acts as WithTimes(count), whatever `count` is. */
    method Times(count: int) returns (r: Outcome)
      modifies this`records, this`lastVerification, this`warned
      ensures old(lastVerification).None? ==>
        && warned
        && records == old(records)
        && (r.Ok? <==> count == |records|)
        && (r.Fail? ==> r == Fail(VerifyFailed(CountMismatch(count, |records|))))
        && lastVerification == None
      ensures old(lastVerification).Some? && count < 2 ==>
        && r == Fail(InvalidParameter)
        && records == old(records)
        && lastVerification == old(lastVerification)
        && warned == old(warned)
      ensures old(lastVerification).Some? && count >= 2 ==>
        && Step(r, records) == Replay(Consumer(check, old(lastVerification).value), old(records), count - 1)
        && lastVerification == (if r.Ok? then None else old(lastVerification))
        && warned == old(warned)
    {
      if lastVerification.None? {
        warned := true;
        r := WithTimes(count);
        return;
      }
      if count < 2 {
        return Fail(InvalidParameter);
      }
      ghost var v := lastVerification.value;
      ghost var step := Consumer(check, v);
      var i := 0;
      while i < count - 1
        invariant 0 <= i <= count - 1
        invariant lastVerification == Some(v) && warned == old(warned)
        invariant Replay(step, old(records), i) == Step(Ok, records)
      {
        ghost var before := records;
        if lastVerification.value.inOrder {
          r := WithInOrder(lastVerification.value.parameters);
        } else {
          r := With(lastVerification.value.parameters);
        }
        assert Step(r, records) == step(before);
        ReplayExtends(step, old(records), i);
        if r.Fail? {
          ReplayStopsAtFailure(step, old(records), i + 1, count - 1);
          return;
        }
        i := i + 1;
      }
      lastVerification := None;
      r := Ok;
    }
  }

  /** The comma-separated list that failure messages show. */
  function Joined(parts: seq<string>): string
  {
    if |parts| == 0 then ""
    else if |parts| == 1 then parts[0]
    else parts[0] + ", " + Joined(parts[1..])
  }

  /** Appending a part extends the list by a separator and that part. */
  lemma {:induction false} JoinedSnoc(parts: seq<string>, p: string)
    ensures Joined(parts + [p]) == if parts == [] then p else Joined(parts) + ", " + p
    decreases |parts|
  {
    if |parts| > 1 {
      assert (parts + [p])[1..] == parts[1..] + [p];
      JoinedSnoc(parts[1..], p);
    } else if |parts| == 1 {
      assert (parts + [p])[1..] == [p];
    }
  }

  /** A description is the separator ": " followed by the rendered
      arguments, joined by ", ". */
  method Desc(parts: seq<string>) returns (s: string)
    ensures s == ": " + Joined(parts)
  {
    s := ": ";
    var i := 0;
    while i < |parts|
      invariant i <= |parts|
      invariant s == ": " + Joined(parts[..i])
    {
      if i > 0 {
        s := s + ", ";
      }
      s := s + parts[i];
      JoinedSnoc(parts[..i], parts[i]);
      assert parts[..i + 1] == parts[..i] + [parts[i]];
      i := i + 1;
    }
    assert parts[..|parts|] == parts;
  }

  /** The record store [("a", 1), ("b", 2), ("a", 1)] put through
      withInOrder("a", 1), without("a", 1), with("a", 1) and withTimes(1). */
  method ChainScenario() returns (inOrder: Outcome, absent: Outcome, any: Outcome, count: Outcome, left: seq<Record>)
    ensures inOrder == Ok
    ensures absent == Fail(VerifyFailed(WasInvokedWith))
    ensures any == Ok && count == Ok
    ensures left == [[Lit(Named("java.lang.String"), "b"), Lit(Named("java.lang.Integer"), "2")]]
  {
    var a1 := [Lit(Named("java.lang.String"), "a"), Lit(Named("java.lang.Integer"), "1")];
    var b2 := [Lit(Named("java.lang.String"), "b"), Lit(Named("java.lang.Integer"), "2")];
    var verifier := new InvocationVerifier([a1, b2, a1], (id, x) => false);
    assert Passes(verifier.check, a1, a1);
    assert !Passes(verifier.check, a1, b2);
    inOrder := verifier.WithInOrder(a1);
    assert verifier.records == [b2, a1];
    absent := verifier.Without(a1);
    assert InvokedWith(verifier.check, a1, verifier.records[1]);
    any := verifier.With(a1);
    assert FirstMatch(verifier.check, a1, [b2, a1], 0) == Some(1);
    assert verifier.records == [b2];
    count := verifier.WithTimes(1);
    left := verifier.records;
  }
}
