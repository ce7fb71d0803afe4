/**
 * Expected values, probability validation and the tree aggregate
 * (src/utils/calculations.ts). The source's `reduce` folds run from the
 * left, so the folds here peel the LAST element.
 */
module Calculations {
  import opened TreeTypes

  /** The contribution of one branch: its probability as a fraction times its value. */
  function Term(b: Branch): real {
    b.probability / 100.0 * b.value
  }

  /** calculateExpectedValue: the sum of the branch terms, 0 for no branches. */
  function ExpectedValue(branches: seq<Branch>): (ev: real)
    ensures branches == [] ==> ev == 0.0
  {
    if branches == [] then 0.0
    else ExpectedValue(branches[..|branches| - 1]) + Term(branches[|branches| - 1])
  }

  /** The sum of the probabilities that validateProbabilities checks. */
  function Total(branches: seq<Branch>): real {
    if branches == [] then 0.0
    else Total(branches[..|branches| - 1]) + branches[|branches| - 1].probability
  }

  // ---------------------------------------------------------------------------
  // Expected value

  /** Appending a branch adds exactly its own term. */
  lemma ExpectedValueAppend(branches: seq<Branch>, b: Branch)
    ensures ExpectedValue(branches + [b]) == ExpectedValue(branches) + Term(b)
  {
    assert (branches + [b])[..|branches|] == branches;
  }

  /** The expected value of a concatenation is the sum of the two parts. */
  lemma {:induction false} ExpectedValueConcat(a: seq<Branch>, b: seq<Branch>)
    ensures ExpectedValue(a + b) == ExpectedValue(a) + ExpectedValue(b)
  {
    if b == [] {
      assert a + b == a;
    } else {
      var init, last := b[..|b| - 1], b[|b| - 1];
      assert a + b == (a + init) + [last];
      assert b == init + [last];
      ExpectedValueAppend(a + init, last);
      ExpectedValueAppend(init, last);
      ExpectedValueConcat(a, init);
    }
  }

  /** Replacing the branch at `i` swaps its term for the new branch's term. */
  lemma ExpectedValueSlot(branches: seq<Branch>, i: nat, b: Branch)
    requires i < |branches|
    ensures ExpectedValue(branches[i := b]) == ExpectedValue(branches) - Term(branches[i]) + Term(b)
  {
    var pre, post := branches[..i], branches[i + 1..];
    assert branches == pre + [branches[i]] + post;
    assert branches[i := b] == pre + [b] + post;
    ExpectedValueConcat(pre + [branches[i]], post);
    ExpectedValueConcat(pre + [b], post);
    ExpectedValueAppend(pre, branches[i]);
    ExpectedValueAppend(pre, b);
  }

  /** A branch whose value is multiplied by `k`. */
  function Scaled(b: Branch, k: real): Branch {
    b.(value := k * b.value)
  }

  /** Every branch value multiplied by `k`. */
  function ScaleValues(branches: seq<Branch>, k: real): (scaled: seq<Branch>)
    ensures |scaled| == |branches|
  {
    if branches == [] then []
    else ScaleValues(branches[..|branches| - 1], k) + [Scaled(branches[|branches| - 1], k)]
  }

  lemma TermScale(b: Branch, k: real)
    ensures Term(Scaled(b, k)) == k * Term(b)
  {
    var p := b.probability / 100.0;
    assert p * (k * b.value) == k * (p * b.value);
  }

  /** The term of each branch, in branch order. */
  function Terms(branches: seq<Branch>): (ts: seq<real>)
    ensures |ts| == |branches|
  {
    if branches == [] then [] else Terms(branches[..|branches| - 1]) + [Term(branches[|branches| - 1])]
  }

  /** The sum of a sequence of reals, folded from the left. */
  function Sum(xs: seq<real>): real {
    if xs == [] then 0.0 else Sum(xs[..|xs| - 1]) + xs[|xs| - 1]
  }

  lemma {:induction false} ScaleValuesAt(branches: seq<Branch>, k: real, i: nat)
    requires i < |branches|
    ensures ScaleValues(branches, k)[i] == Scaled(branches[i], k)
  {
    if i < |branches| - 1 {
      ScaleValuesAt(branches[..|branches| - 1], k, i);
    }
  }

  lemma {:induction false} TermsAt(branches: seq<Branch>, i: nat)
    requires i < |branches|
    ensures Terms(branches)[i] == Term(branches[i])
  {
    if i < |branches| - 1 {
      TermsAt(branches[..|branches| - 1], i);
    }
  }

  lemma TermsScaledAt(branches: seq<Branch>, k: real, i: nat)
    requires i < |branches|
    ensures Terms(ScaleValues(branches, k))[i] == k * Terms(branches)[i]
  {
    ScaleValuesAt(branches, k, i);
    TermsAt(ScaleValues(branches, k), i);
    TermsAt(branches, i);
    TermScale(branches[i], k);
  }

  /** Scaling the values scales every term by `k`. */
  lemma {:induction false} TermsScaled(branches: seq<Branch>, k: real)
    ensures forall i :: 0 <= i < |branches| ==> Terms(ScaleValues(branches, k))[i] == k * Terms(branches)[i]
  {
    forall i | 0 <= i < |branches|
      ensures Terms(ScaleValues(branches, k))[i] == k * Terms(branches)[i]
    {
      TermsScaledAt(branches, k, i);
    }
  }

  lemma SumAppend(xs: seq<real>, x: real)
    ensures Sum(xs + [x]) == Sum(xs) + x
  {
    assert (xs + [x])[..|xs|] == xs;
  }

  /** The expected value is the sum of the branch terms. */
  lemma {:induction false} ExpectedValueIsSum(branches: seq<Branch>)
    ensures ExpectedValue(branches) == Sum(Terms(branches))
  {
    if branches != [] {
      var init, last := branches[..|branches| - 1], branches[|branches| - 1];
      ExpectedValueIsSum(init);
      SumAppend(Terms(init), Term(last));
      assert Terms(branches) == Terms(init) + [Term(last)];
    }
  }

  /** A sum whose every element is `k` times another's is `k` times that sum. */
  lemma {:induction false} SumScaled(xs: seq<real>, ys: seq<real>, k: real)
    requires |ys| == |xs|
    requires forall i :: 0 <= i < |xs| ==> ys[i] == k * xs[i]
    ensures Sum(ys) == k * Sum(xs)
  {
    if xs != [] {
      var n := |xs|;
      SumScaled(xs[..n - 1], ys[..n - 1], k);
    }
  }

  /**
   * Proof helper for ExpectedValueLinear, not a property of the calculator:
   * chains a == b == k * c with c == d where no function definition is in
   * scope, so the solver need not rewrite underneath the product with k.
   */
  lemma ChainScaled(a: real, b: real, c: real, d: real, k: real)
    requires a == b && b == k * c && c == d
    ensures a == k * d
  {
  }

  /** Linearity: scaling every value by `k` scales the expected value by `k`. */
  lemma {:induction false} ExpectedValueLinear(branches: seq<Branch>, k: real)
    ensures ExpectedValue(ScaleValues(branches, k)) == k * ExpectedValue(branches)
  {
    var scaled := ScaleValues(branches, k);
    ExpectedValueIsSum(scaled);
    TermsScaled(branches, k);
    SumScaled(Terms(branches), Terms(scaled), k);
    ExpectedValueIsSum(branches);
    ChainScaled(ExpectedValue(scaled), Sum(Terms(scaled)), Sum(Terms(branches)), ExpectedValue(branches), k);
  }

  // ---------------------------------------------------------------------------
  // Validation

  function Abs(x: real): real {
    if x < 0.0 then -x else x
  }

  /** The sum rule fails: the total is more than 0.01 away from 100. */
  predicate SumOff(total: real) {
    Abs(total - 100.0) > 0.01
  }

  /** The range rule fails for one branch. */
  predicate OutOfRange(b: Branch) {
    b.probability < 0.0 || b.probability > 100.0
  }

  function SumErrors(total: real): seq<ValidationError> {
    if SumOff(total) then [SumError(total)] else []
  }

  /** One range error per out-of-range branch, in branch order, naming 1-based positions. */
  function RangeErrors(branches: seq<Branch>): (errs: seq<ValidationError>)
    ensures |errs| <= |branches|
    ensures forall k :: 0 <= k < |errs| ==> errs[k].RangeError? && 1 <= errs[k].position <= |branches|
  {
    if branches == [] then []
    else
      var n := |branches|;
      RangeErrors(branches[..n - 1]) + (if OutOfRange(branches[n - 1]) then [RangeError(n)] else [])
  }

  /** validateProbabilities, as a value: the sum error first, then the range errors. */
  function Validation(branches: seq<Branch>): (result: ValidationResult)
    ensures result.isValid <==> result.errors == []
    ensures |result.errors| <= |branches| + 1
  {
    var errs := SumErrors(Total(branches)) + RangeErrors(branches);
    ValidationResult(|errs| == 0, errs)
  }

  /**
   * validateProbabilities as the source runs it: push the sum error, then walk
   * the branches and push one range error per offending branch.
   */
  method ValidateProbabilities(branches: seq<Branch>) returns (result: ValidationResult)
    ensures result == Validation(branches)
    ensures result.isValid <==> result.errors == []
  {
    var errors: seq<ValidationError> := [];
    var totalProbability := Total(branches);
    if Abs(totalProbability - 100.0) > 0.01 {
      errors := errors + [SumError(totalProbability)];
    }
    for index := 0 to |branches|
      invariant errors == SumErrors(totalProbability) + RangeErrors(branches[..index])
    {
      assert branches[..index + 1][..index] == branches[..index];
      if branches[index].probability < 0.0 || branches[index].probability > 100.0 {
        errors := errors + [RangeError(index + 1)];
      }
    }
    assert branches[..|branches|] == branches;
    result := ValidationResult(|errors| == 0, errors);
  }

  /** There is a range error naming position i + 1 iff branch i is out of range. */
  lemma {:induction false} RangeErrorIff(branches: seq<Branch>, i: nat)
    requires i < |branches|
    ensures RangeError(i + 1) in RangeErrors(branches) <==> OutOfRange(branches[i])
  {
    var n := |branches|;
    var init := branches[..n - 1];
    var prefix := RangeErrors(init);
    assert RangeErrors(branches) == prefix + (if OutOfRange(branches[n - 1]) then [RangeError(n)] else []);
    if i == n - 1 {
      assert RangeError(i + 1) !in prefix;
    } else {
      assert init[i] == branches[i];
      RangeErrorIff(init, i);
    }
  }

  /** The number of out-of-range branches, counted from the front. */
  function CountOutOfRange(branches: seq<Branch>): nat {
    if branches == [] then 0
    else (if OutOfRange(branches[0]) then 1 else 0) + CountOutOfRange(branches[1..])
  }

  lemma {:induction false} CountOutOfRangeAppend(branches: seq<Branch>, b: Branch)
    ensures CountOutOfRange(branches + [b]) == CountOutOfRange(branches) + (if OutOfRange(b) then 1 else 0)
  {
    if branches != [] {
      assert (branches + [b])[1..] == branches[1..] + [b];
      CountOutOfRangeAppend(branches[1..], b);
    }
  }

  lemma {:induction false} RangeErrorsCount(branches: seq<Branch>)
    ensures |RangeErrors(branches)| == CountOutOfRange(branches)
  {
    if branches != [] {
      var n := |branches|;
      assert branches == branches[..n - 1] + [branches[n - 1]];
      RangeErrorsCount(branches[..n - 1]);
      CountOutOfRangeAppend(branches[..n - 1], branches[n - 1]);
    }
  }

  /**
   * The result holds a sum error iff the total is more than 0.01 away from 100;
   * it then carries the total and comes first, and every other error is a range error.
   */
  lemma SumErrorIff(branches: seq<Branch>)
    ensures SumError(Total(branches)) in Validation(branches).errors <==> SumOff(Total(branches))
    ensures SumOff(Total(branches)) ==> Validation(branches).errors[0] == SumError(Total(branches))
    ensures forall k :: 0 <= k < |Validation(branches).errors| && Validation(branches).errors[k].SumError? ==> k == 0
    ensures forall e :: e in Validation(branches).errors && e.SumError? ==>
      e == SumError(Total(branches)) && SumOff(Total(branches))
    ensures forall e :: e in Validation(branches).errors && e.RangeError? ==> 1 <= e.position <= |branches|
  {
    var errs := Validation(branches).errors;
    var sums, ranges := SumErrors(Total(branches)), RangeErrors(branches);
    assert errs == sums + ranges;
    assert forall k :: |sums| <= k < |errs| ==> errs[k] == ranges[k - |sums|];
  }

  /** A range error naming i + 1 is reported iff branch i is out of range. */
  lemma ValidationRangeErrorIff(branches: seq<Branch>, i: nat)
    requires i < |branches|
    ensures RangeError(i + 1) in Validation(branches).errors <==> OutOfRange(branches[i])
  {
    RangeErrorIff(branches, i);
    assert Validation(branches).errors == SumErrors(Total(branches)) + RangeErrors(branches);
  }

  /** Range errors name strictly increasing positions, that is, they come in branch order. */
  lemma {:induction false} RangeErrorsOrdered(branches: seq<Branch>)
    ensures forall j, k :: 0 <= j < k < |RangeErrors(branches)| ==>
      RangeErrors(branches)[j].position < RangeErrors(branches)[k].position
  {
    if branches != [] {
      var n := |branches|;
      var prefix := RangeErrors(branches[..n - 1]);
      var errs := RangeErrors(branches);
      RangeErrorsOrdered(branches[..n - 1]);
      assert errs == prefix + (if OutOfRange(branches[n - 1]) then [RangeError(n)] else []);
      forall j, k | 0 <= j < k < |errs|
        ensures errs[j].position < errs[k].position
      {
        if k < |prefix| {
          assert errs[j] == prefix[j] && errs[k] == prefix[k];
        } else {
          assert errs[j] == prefix[j] && errs[k] == RangeError(n);
        }
      }
    }
  }

  /** The sum error, if any, is first; the range errors follow in branch order. */
  lemma ValidationRangeErrorsOrdered(branches: seq<Branch>)
    ensures forall j, k :: 0 <= j < k < |Validation(branches).errors| && Validation(branches).errors[j].RangeError? ==>
      Validation(branches).errors[j].position < Validation(branches).errors[k].position
  {
    var errs := Validation(branches).errors;
    var sums, ranges := SumErrors(Total(branches)), RangeErrors(branches);
    assert errs == sums + ranges;
    RangeErrorsOrdered(branches);
    forall j, k | 0 <= j < k < |errs| && errs[j].RangeError?
      ensures errs[j].position < errs[k].position
    {
      assert j >= |sums|;
      assert errs[j] == ranges[j - |sums|] && errs[k] == ranges[k - |sums|];
    }
  }

  /** The error count: one for the sum rule if it fails, plus one per out-of-range branch. */
  lemma ValidationErrorCount(branches: seq<Branch>)
    ensures |Validation(branches).errors| == (if SumOff(Total(branches)) then 1 else 0) + CountOutOfRange(branches)
  {
    RangeErrorsCount(branches);
  }

  /** No range error is reported iff every branch is within [0, 100]. */
  lemma {:induction false} RangeErrorsEmptyIff(branches: seq<Branch>)
    ensures RangeErrors(branches) == [] <==> forall i :: 0 <= i < |branches| ==> !OutOfRange(branches[i])
  {
    if branches != [] {
      var n := |branches|;
      var init := branches[..n - 1];
      var last := if OutOfRange(branches[n - 1]) then [RangeError(n)] else [];
      assert RangeErrors(branches) == RangeErrors(init) + last;
      RangeErrorsEmptyIff(init);
      assert forall i :: 0 <= i < n - 1 ==> init[i] == branches[i];
    }
  }

  /** Valid iff the sum rule holds and every branch is within [0, 100]. */
  lemma ValidIff(branches: seq<Branch>)
    ensures Validation(branches).isValid <==>
      !SumOff(Total(branches)) && forall i :: 0 <= i < |branches| ==> !OutOfRange(branches[i])
  {
    RangeErrorsEmptyIff(branches);
  }

  /** No branches: the total is 0, which breaks the sum rule. */
  lemma EmptyIsInvalid()
    ensures !Validation([]).isValid
  {
    assert Total([]) == 0.0;
  }

  /** Probabilities within [0, 100] that sum to exactly 100 are valid. */
  lemma WellFormedIsValid(branches: seq<Branch>)
    requires forall i :: 0 <= i < |branches| ==> 0.0 <= branches[i].probability <= 100.0
    requires Total(branches) == 100.0
    ensures Validation(branches).isValid
  {
    ValidIff(branches);
  }

  // ---------------------------------------------------------------------------
  // Tree aggregate

  /** The sum of the cached node expected values. */
  function ExpectedSum(nodes: seq<ProbabilityNode>): real {
    if nodes == [] then 0.0
    else ExpectedSum(nodes[..|nodes| - 1]) + nodes[|nodes| - 1].expectedValue
  }

  /** calculateTreeValue: the mean of the nodes' expected values, 0 for no nodes. */
  function TreeValue(nodes: seq<ProbabilityNode>): (r: real)
    ensures nodes == [] ==> r == 0.0
  {
    if |nodes| == 0 then 0.0 else ExpectedSum(nodes) / (|nodes| as real)
  }

  lemma {:induction false} ExpectedSumBounds(nodes: seq<ProbabilityNode>, lo: real, hi: real)
    requires forall i :: 0 <= i < |nodes| ==> lo <= nodes[i].expectedValue <= hi
    ensures (|nodes| as real) * lo <= ExpectedSum(nodes) <= (|nodes| as real) * hi
  {
    if nodes != [] {
      ExpectedSumBounds(nodes[..|nodes| - 1], lo, hi);
    }
  }

  /** The mean lies between the smallest and the largest node value. */
  lemma TreeValueBetween(nodes: seq<ProbabilityNode>, lo: real, hi: real)
    requires nodes != []
    requires forall i :: 0 <= i < |nodes| ==> lo <= nodes[i].expectedValue <= hi
    ensures lo <= TreeValue(nodes) <= hi
  {
    ExpectedSumBounds(nodes, lo, hi);
    var n := |nodes| as real;
    assert ExpectedSum(nodes) / n >= (n * lo) / n;
    assert ExpectedSum(nodes) / n <= (n * hi) / n;
  }

  /** When every node has the same expected value v, the mean is v. */
  lemma TreeValueUniform(nodes: seq<ProbabilityNode>, v: real)
    requires nodes != []
    requires forall i :: 0 <= i < |nodes| ==> nodes[i].expectedValue == v
    ensures TreeValue(nodes) == v
  {
    TreeValueBetween(nodes, v, v);
  }

  /** Scenario: 60% of 1000 and 40% of -200 give 520. */
  lemma ExpectedValueExample()
    ensures ExpectedValue([Branch("a", 60.0, 1000.0, "x"), Branch("b", 40.0, -200.0, "y")]) == 520.0
  {
    ExpectedValueAppend([Branch("a", 60.0, 1000.0, "x")], Branch("b", 40.0, -200.0, "y"));
    ExpectedValueAppend([], Branch("a", 60.0, 1000.0, "x"));
  }

  /** Scenario: two nodes with expected values 520 and 300 give the aggregate 410. */
  lemma TreeValueExample()
    ensures TreeValue([ProbabilityNode("a", "A", [], 520.0), ProbabilityNode("b", "B", [], 300.0)]) == 410.0
  {
    var nodes := [ProbabilityNode("a", "A", [], 520.0), ProbabilityNode("b", "B", [], 300.0)];
    assert nodes[..1] == [nodes[0]];
    assert ExpectedSum(nodes[..1]) == 520.0;
  }

  /** Scenario: 50% and 40% fail with a sum error carrying the total 90. */
  lemma SumErrorExample()
    ensures Validation([Branch("a", 50.0, 0.0, "x"), Branch("b", 40.0, 0.0, "y")]).errors == [SumError(90.0)]
  {
    var bs := [Branch("a", 50.0, 0.0, "x"), Branch("b", 40.0, 0.0, "y")];
    assert bs[..1] == [bs[0]];
    assert bs[..1][..0] == [];
    assert Total(bs) == 90.0;
    assert RangeErrors(bs[..1]) == [];
    assert RangeErrors(bs) == [];
  }
}
