/** Argument values as the invocation verifier sees them, and the per-argument
    match rule shared by every verification (InvocationVerifier.matches).

    JVM objects are abstracted by what the rule looks at: the runtime class that
    `getClass()` reports, identity under `equals`, the elements of an
    `Object[]`, and whether the value is an `InvocationMatcher`. */
module Values {

  /** A runtime class, as `getClass()` would report it: the class of every
      `InvocationMatcher`, or another class by its name. */
  datatype ClassName = MatcherClass | Named(name: string)

  /** One argument value.
      - `Lit(cls, datum)`: a non-array object of class `cls`; two of them are
        `equals` exactly when class and `datum` agree.
      - `Arr(cls, elems)`: an `Object[]` (or a subclass array such as
        `String[]`) with its elements.
      - `Matcher(id)`: an `InvocationMatcher`; `id` names the caller-supplied
        predicate it wraps (see MatchFunction). */
  datatype Value =
    | Lit(cls: ClassName, datum: string)
    | Arr(cls: ClassName, elems: seq<Value>)
    | Matcher(id: nat)

  /** The caller-supplied predicates of the matchers in play: `check(id, v)` is
      what the `matchFunction` of matcher `id` answers for the recorded value `v`. */
  type MatchFunction = (nat, Value) -> bool

  /** A JVM array class name: its binary name starts with `[`. */
  predicate IsArrayClass(c: ClassName)
  {
    c.Named? && |c.name| > 0 && c.name[0] == '['
  }

  /** The values that stand for JVM objects: a literal has a plain class that
      is neither an array class nor the matcher class, an array has an array
      class and well-formed elements. */
  predicate WellFormed(v: Value)
    decreases v
  {
    match v
    case Lit(c, _) => c.Named? && !IsArrayClass(c)
    case Arr(c, es) => IsArrayClass(c) && forall i | 0 <= i < |es| :: WellFormed(es[i])
    case Matcher(_) => true
  }

  /** `getClass()` of a value. */
  function ClassOf(v: Value): ClassName
  {
    match v
    case Lit(c, _) => c
    case Arr(c, _) => c
    case Matcher(_) => MatcherClass
  }

  /** `Arrays.deepEquals` lifted to values: two arrays are deeply equal when
      they have the same length and their elements are pairwise deeply equal
      (arrays by recursion, everything else by `equals`). The classes of the
      arrays themselves are not compared. */
  predicate DeepEquals(x: Value, y: Value)
    decreases x
  {
    if x.Arr? && y.Arr? then
      |x.elems| == |y.elems| &&
      forall i | 0 <= i < |x.elems| :: DeepEquals(x.elems[i], y.elems[i])
    else
      x == y
  }

  /** Reference definition for deep equality: a value with the class of every
      array in it forgotten. */
  function Shape(v: Value): Value
    decreases v
  {
    match v
    case Arr(_, es) => Arr(Named(""), seq(|es|, i requires 0 <= i < |es| => Shape(es[i])))
    case _ => v
  }

  /** The match rule (InvocationVerifier.matches): a matcher answers with its
      predicate; two arrays are compared deeply; anything else by `equals`. */
  predicate Matches(check: MatchFunction, expected: Value, actual: Value)
  {
    match expected
    case Matcher(id) => check(id, actual)
    case _ =>
      if expected.Arr? && actual.Arr? then DeepEquals(expected, actual)
      else expected == actual
  }

  /** On well-formed values the constructor tests of the model are the class
      tests of the source: `instanceof InvocationMatcher` is `Matcher?` and
      `getClass().isArray()` is `Arr?`. */
  lemma WellFormedClassTests(v: Value)
    requires WellFormed(v)
    ensures v.Matcher? <==> ClassOf(v) == MatcherClass
    ensures v.Arr? <==> IsArrayClass(ClassOf(v))
  {
  }

  /** Deep equality is exactly equality of shapes. */
  lemma {:induction false} DeepEqualsIffSameShape(x: Value, y: Value)
    ensures DeepEquals(x, y) <==> Shape(x) == Shape(y)
    decreases x
  {
    if x.Arr? && y.Arr? {
      var xs, ys := x.elems, y.elems;
      forall i | 0 <= i < |xs| && i < |ys|
        ensures DeepEquals(xs[i], ys[i]) <==> Shape(xs[i]) == Shape(ys[i])
      {
        DeepEqualsIffSameShape(xs[i], ys[i]);
      }
      if Shape(x) == Shape(y) {
        assert |Shape(x).elems| == |xs| && |Shape(y).elems| == |ys|;
        forall i | 0 <= i < |xs| ensures DeepEquals(xs[i], ys[i]) {
          assert Shape(x).elems[i] == Shape(xs[i]);
          assert Shape(y).elems[i] == Shape(ys[i]);
        }
      }
    } else if x.Arr? {
      assert Shape(x).Arr? && !Shape(y).Arr?;
    } else if y.Arr? {
      assert !Shape(x).Arr? && Shape(y).Arr?;
    }
  }

  /** Deep equality is an equivalence: every array deep-equals itself, and the
      relation is symmetric and transitive. */
  lemma DeepEqualsIsEquivalence(x: Value, y: Value, z: Value)
    ensures DeepEquals(x, x)
    ensures DeepEquals(x, y) ==> DeepEquals(y, x)
    ensures DeepEquals(x, y) && DeepEquals(y, z) ==> DeepEquals(x, z)
  {
    DeepEqualsIffSameShape(x, x);
    DeepEqualsIffSameShape(x, y);
    DeepEqualsIffSameShape(y, x);
    DeepEqualsIffSameShape(y, z);
    DeepEqualsIffSameShape(x, z);
  }

  /** For an expected argument that is not a matcher, the rule is: same shape.
      In particular two arrays with equal contents match whatever their array
      classes, and an array never matches a non-array. */
  lemma LiteralMatchesIffSameShape(check: MatchFunction, expected: Value, actual: Value)
    requires !expected.Matcher?
    ensures Matches(check, expected, actual) <==> Shape(expected) == Shape(actual)
  {
    DeepEqualsIffSameShape(expected, actual);
  }

  /** Two distinct arrays holding 1, 2, 3 match; 1, 2, 3 against 1, 2, 4 does not. */
  lemma DeepArrayExample(check: MatchFunction)
    ensures var one, two := Lit(Named("java.lang.Integer"), "1"), Lit(Named("java.lang.Integer"), "2");
            Matches(check, Arr(Named("[Ljava.lang.Object;"), [one, two, Lit(Named("java.lang.Integer"), "3")]),
                           Arr(Named("[Ljava.lang.Integer;"), [one, two, Lit(Named("java.lang.Integer"), "3")])) &&
            !Matches(check, Arr(Named("[Ljava.lang.Object;"), [one, two, Lit(Named("java.lang.Integer"), "3")]),
                            Arr(Named("[Ljava.lang.Object;"), [one, two, Lit(Named("java.lang.Integer"), "4")]))
  {
    var one, two := Lit(Named("java.lang.Integer"), "1"), Lit(Named("java.lang.Integer"), "2");
    var x := Arr(Named("[Ljava.lang.Object;"), [one, two, Lit(Named("java.lang.Integer"), "3")]);
    var y := Arr(Named("[Ljava.lang.Object;"), [one, two, Lit(Named("java.lang.Integer"), "4")]);
    assert !DeepEquals(x.elems[2], y.elems[2]);
  }

  /** Every non-matcher value matches itself, arrays included. */
  lemma MatchesOwnValue(check: MatchFunction, v: Value)
    requires !v.Matcher?
    ensures Matches(check, v, v)
  {
    LiteralMatchesIffSameShape(check, v, v);
  }
}
