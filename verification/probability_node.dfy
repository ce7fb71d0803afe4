/**
 * The edit handlers of one scenario card (src/components/ProbabilityNode.tsx).
 * Each branch handler copies the branch list, overwrites one slot and emits
 * the node with its expected value recomputed; the caller then commits it
 * with the tree's update-by-id.
 */
module ProbabilityNodeEdits {
  import opened TreeTypes
  import opened Calculations

  /** The cached expected value agrees with the branches. */
  predicate Consistent(node: ProbabilityNode) {
    node.expectedValue == ExpectedValue(node.branches)
  }

  /** The number an input field yields: empty or unparsable input reads as 0, a parsed number as itself. */
  function ParsedOrZero(input: Option<real>): (x: real)
    ensures input.None? ==> x == 0.0
    ensures input.Some? ==> x == input.value
  {
    match input
    case None => 0.0
    case Some(x) => x
  }

  /** A fresh array holding a copy of the branches (`[...node.branches]`). */
  method CopyBranches(branches: seq<Branch>) returns (copy: array<Branch>)
    ensures fresh(copy) && copy[..] == branches
  {
    copy := new Branch[|branches|](j requires 0 <= j < |branches| => branches[j]);
  }

  /** handleProbabilityChange */
  method HandleProbabilityChange(node: ProbabilityNode, branchIndex: nat, input: Option<real>)
    returns (emitted: ProbabilityNode)
    requires branchIndex < |node.branches|
    ensures emitted.id == node.id && emitted.name == node.name
    ensures |emitted.branches| == |node.branches|
    ensures forall j :: 0 <= j < |node.branches| && j != branchIndex ==> emitted.branches[j] == node.branches[j]
    ensures emitted.branches[branchIndex].id == node.branches[branchIndex].id
    ensures emitted.branches[branchIndex].value == node.branches[branchIndex].value
    ensures emitted.branches[branchIndex].labelText == node.branches[branchIndex].labelText
    ensures emitted.branches[branchIndex].probability == (if input.Some? then input.value else 0.0)
    ensures Consistent(emitted)
    ensures Consistent(node) ==>
      emitted.expectedValue == node.expectedValue - Term(node.branches[branchIndex]) + Term(emitted.branches[branchIndex])
  {
    var newBranches := CopyBranches(node.branches);
    newBranches[branchIndex] := newBranches[branchIndex].(probability := ParsedOrZero(input));
    emitted := node.(branches := newBranches[..], expectedValue := ExpectedValue(newBranches[..]));
    assert newBranches[..] == node.branches[branchIndex := newBranches[branchIndex]];
    ExpectedValueSlot(node.branches, branchIndex, newBranches[branchIndex]);
  }

  /** handleValueChange */
  method HandleValueChange(node: ProbabilityNode, branchIndex: nat, input: Option<real>)
    returns (emitted: ProbabilityNode)
    requires branchIndex < |node.branches|
    ensures emitted.id == node.id && emitted.name == node.name
    ensures |emitted.branches| == |node.branches|
    ensures forall j :: 0 <= j < |node.branches| && j != branchIndex ==> emitted.branches[j] == node.branches[j]
    ensures emitted.branches[branchIndex].id == node.branches[branchIndex].id
    ensures emitted.branches[branchIndex].probability == node.branches[branchIndex].probability
    ensures emitted.branches[branchIndex].labelText == node.branches[branchIndex].labelText
    ensures emitted.branches[branchIndex].value == (if input.Some? then input.value else 0.0)
    ensures Consistent(emitted)
    ensures Consistent(node) ==>
      emitted.expectedValue == node.expectedValue - Term(node.branches[branchIndex]) + Term(emitted.branches[branchIndex])
  {
    var newBranches := CopyBranches(node.branches);
    newBranches[branchIndex] := newBranches[branchIndex].(value := ParsedOrZero(input));
    emitted := node.(branches := newBranches[..], expectedValue := ExpectedValue(newBranches[..]));
    assert newBranches[..] == node.branches[branchIndex := newBranches[branchIndex]];
    ExpectedValueSlot(node.branches, branchIndex, newBranches[branchIndex]);
  }

  /** handleNameChange: only the name changes; branches and the cached value pass through. */
  function HandleNameChange(node: ProbabilityNode, name: string): (emitted: ProbabilityNode)
    ensures emitted.name == name && emitted.id == node.id
    ensures emitted.branches == node.branches && emitted.expectedValue == node.expectedValue
    ensures Consistent(emitted) <==> Consistent(node)
  {
    node.(name := name)
  }

  /**
   * handleBranchLabelChange: only the caption of one branch changes; the
   * recomputed expected value is that of the old branches.
   */
  method HandleBranchLabelChange(node: ProbabilityNode, branchIndex: nat, newLabel: string)
    returns (emitted: ProbabilityNode)
    requires branchIndex < |node.branches|
    ensures emitted.id == node.id && emitted.name == node.name
    ensures |emitted.branches| == |node.branches|
    ensures forall j :: 0 <= j < |node.branches| && j != branchIndex ==> emitted.branches[j] == node.branches[j]
    ensures emitted.branches[branchIndex] == node.branches[branchIndex].(labelText := newLabel)
    ensures Consistent(emitted)
    ensures emitted.expectedValue == ExpectedValue(node.branches)
  {
    var newBranches := CopyBranches(node.branches);
    newBranches[branchIndex] := newBranches[branchIndex].(labelText := newLabel);
    emitted := node.(branches := newBranches[..], expectedValue := ExpectedValue(newBranches[..]));
    assert newBranches[..] == node.branches[branchIndex := newBranches[branchIndex]];
    ExpectedValueSlot(node.branches, branchIndex, newBranches[branchIndex]);
  }

  /**
   * totalProbability, the figure shown on the card: it is the total the sum
   * rule checks, and a sum error is reported exactly when it is off.
   */
  function TotalProbability(node: ProbabilityNode): (total: real)
    ensures total == Total(node.branches)
    ensures SumError(total) in Validation(node.branches).errors <==> Abs(total - 100.0) > 0.01
    ensures Abs(total - 100.0) > 0.01 ==> Validation(node.branches).errors[0] == SumError(total)
  {
    SumErrorIff(node.branches);
    Total(node.branches)
  }
}
