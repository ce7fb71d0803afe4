/**
 * The tree screen's state and its handlers (src/components/DecisionTree.tsx).
 * The component's `tree` state is the field of a class; each handler commits
 * the new node list and then runs the effect that recomputes the aggregate,
 * so no caller sees a stale `finalExpectedValue`.
 */
module DecisionTreeState {
  import opened TreeTypes
  import opened Decimal
  import opened Calculations
  import opened ProbabilityNodeEdits

  /** The branch count `createInitialNode` uses when none is given. */
  const DefaultBranchCount: nat := 3

  /** `String.fromCharCode(65 + k)` yields a Dafny `char` while the code stays below the surrogates. */
  const MaxLetteredNodes: nat := 0xD800 - 65

  // ---------------------------------------------------------------------------
  // Default nodes

  /**
   * The default caption of branch i (0-based): three named outlooks, then
   * "Rama " followed by the 1-based branch number in decimal.
   */
  function DefaultLabel(i: nat): (caption: string)
    ensures i >= 3 ==>
      |caption| > 5 && caption[..5] == "Rama " && IsDigits(caption[5..]) && DigitsValue(caption[5..]) == i + 1
  {
    if i == 0 then "Optimista"
    else if i == 1 then "Probable"
    else if i == 2 then "Pesimista"
    else
      var digits := NatToString(i + 1);
      assert ("Rama " + digits)[5..] == digits;
      DigitsValueOfNatToString(i + 1);
      "Rama " + digits
  }

  /** Different branches get different default captions. */
  lemma DefaultLabelsDistinct(i: nat, j: nat)
    requires i != j
    ensures DefaultLabel(i) != DefaultLabel(j)
  {
    if i >= 3 && j >= 3 {
      assert DigitsValue(DefaultLabel(i)[5..]) != DigitsValue(DefaultLabel(j)[5..]);
    } else if i >= 3 || j >= 3 {
      var rama, other := if i >= 3 then i else j, if i >= 3 then j else i;
      assert DefaultLabel(rama)[0] == 'R';
      assert DefaultLabel(other)[0] != 'R';
    } else {
      assert DefaultLabel(0)[0] == 'O' && DefaultLabel(1)[0] == 'P' && DefaultLabel(2)[0] == 'P';
      assert DefaultLabel(1)[1] == 'r' && DefaultLabel(2)[1] == 'e';
    }
  }

  /**
   * Every branch but the last gets 100/n; the last takes what is left of 100,
   * which in exact arithmetic is again 100/n.
   */
  function DefaultProbability(n: nat, i: nat): (p: real)
    requires i < n
    ensures p == 100.0 / (n as real)
    ensures 0.0 < p <= 100.0
  {
    var equalProbability := 100.0 / (n as real);
    ShareArithmetic(n);
    if i == n - 1 then 100.0 - equalProbability * ((n - 1) as real) else equalProbability
  }

  function DefaultBranch(id: string, n: nat, i: nat): Branch
    requires i < n
  {
    Branch(id + "-" + NatToString(i + 1), DefaultProbability(n, i), 0.0, DefaultLabel(i))
  }

  /** The first k of the n default branches, in the order the loop pushes them. */
  function DefaultBranches(id: string, n: nat, k: nat): (branches: seq<Branch>)
    requires k <= n
    ensures |branches| == k
    ensures forall i :: 0 <= i < k ==> branches[i] == DefaultBranch(id, n, i)
  {
    if k == 0 then [] else DefaultBranches(id, n, k - 1) + [DefaultBranch(id, n, k - 1)]
  }

  /** The node createInitialNode builds, as a value. */
  function InitialNode(id: string, name: string, n: nat): ProbabilityNode {
    ProbabilityNode(id, name, DefaultBranches(id, n, n), 0.0)
  }

  /** createInitialNode: push n default branches, then wrap them in a node with expected value 0. */
  method CreateInitialNode(id: string, name: string, branchCount: nat) returns (node: ProbabilityNode)
    ensures node == InitialNode(id, name, branchCount)
    ensures node.id == id && node.name == name && |node.branches| == branchCount
    ensures forall i :: 0 <= i < branchCount ==>
      node.branches[i].id == id + "-" + NatToString(i + 1) &&
      node.branches[i].labelText == DefaultLabel(i) &&
      node.branches[i].value == 0.0
    ensures Consistent(node)
  {
    var branches: seq<Branch> := [];
    for i := 0 to branchCount
      invariant branches == DefaultBranches(id, branchCount, i)
    {
      branches := branches + [Branch(id + "-" + NatToString(i + 1), DefaultProbability(branchCount, i), 0.0, DefaultLabel(i))];
    }
    node := ProbabilityNode(id, name, branches, 0.0);
    InitialNodeConsistent(id, name, branchCount);
  }

  lemma {:induction false} TotalOfEqualShares(branches: seq<Branch>, share: real)
    requires forall i :: 0 <= i < |branches| ==> branches[i].probability == share
    ensures Total(branches) == share * (|branches| as real)
  {
    if branches != [] {
      TotalOfEqualShares(branches[..|branches| - 1], share);
    }
  }

  /** The arithmetic of the split: n - 1 shares of 100/n leave exactly 100/n for the last branch. */
  lemma ShareArithmetic(n: nat)
    requires n >= 1
    ensures 0.0 < 100.0 / (n as real) <= 100.0
    ensures (100.0 / (n as real)) * (n as real) == 100.0
    ensures 100.0 - (100.0 / (n as real)) * ((n - 1) as real) == 100.0 / (n as real)
  {
    var r := n as real;
    var share := 100.0 / r;
    assert share * r == 100.0;
    assert share * ((n - 1) as real) == share * r - share;
  }

  /** The default split gives every branch, the last included, exactly 100/n. */
  lemma InitialNodeShares(id: string, name: string, n: nat)
    requires n >= 1
    ensures forall i :: 0 <= i < n ==> InitialNode(id, name, n).branches[i].probability == 100.0 / (n as real)
  {
    ShareArithmetic(n);
    forall i | 0 <= i < n
      ensures DefaultProbability(n, i) == 100.0 / (n as real)
    {
    }
  }

  /** n branches of 100/n each total exactly 100. */
  lemma TotalOfShares(branches: seq<Branch>, n: nat)
    requires n >= 1 && |branches| == n
    requires forall i :: 0 <= i < |branches| ==> branches[i].probability == 100.0 / (n as real)
    ensures Total(branches) == 100.0
  {
    TotalOfEqualShares(branches, 100.0 / (n as real));
    ShareArithmetic(n);
  }

  /** For n >= 1 the default probabilities sum to exactly 100. */
  lemma InitialNodeTotal(id: string, name: string, n: nat)
    requires n >= 1
    ensures Total(InitialNode(id, name, n).branches) == 100.0
  {
    InitialNodeShares(id, name, n);
    TotalOfShares(InitialNode(id, name, n).branches, n);
  }

  /** Hence a default node passes validation. */
  lemma InitialNodeValid(id: string, name: string, n: nat)
    requires n >= 1
    ensures Validation(InitialNode(id, name, n).branches).isValid
  {
    InitialNodeShares(id, name, n);
    ShareArithmetic(n);
    InitialNodeTotal(id, name, n);
    WellFormedIsValid(InitialNode(id, name, n).branches);
  }

  lemma {:induction false} ExpectedValueOfZeroValues(branches: seq<Branch>)
    requires forall i :: 0 <= i < |branches| ==> branches[i].value == 0.0
    ensures ExpectedValue(branches) == 0.0
  {
    if branches != [] {
      ExpectedValueOfZeroValues(branches[..|branches| - 1]);
    }
  }

  /** Every default value is 0, so the stored expected value 0 is the computed one. */
  lemma InitialNodeConsistent(id: string, name: string, n: nat)
    ensures Consistent(InitialNode(id, name, n))
  {
    ExpectedValueOfZeroValues(InitialNode(id, name, n).branches);
  }

  /** The generated branch ids `id-1` ... `id-n` are pairwise distinct. */
  lemma InitialNodeIdsDistinct(id: string, name: string, n: nat, i: nat, j: nat)
    requires i < n && j < n && i != j
    ensures InitialNode(id, name, n).branches[i].id != InitialNode(id, name, n).branches[j].id
  {
    var prefix := id + "-";
    var si, sj := NatToString(i + 1), NatToString(j + 1);
    if prefix + si == prefix + sj {
      assert (prefix + si)[|prefix|..] == si;
      assert (prefix + sj)[|prefix|..] == sj;
      NatToStringInjective(i + 1, j + 1);
    }
  }

  // ---------------------------------------------------------------------------
  // Node-list operations

  /** The `map` of handleUpdateNode: every node with the updated node's id is replaced by it. */
  function ReplaceById(nodes: seq<ProbabilityNode>, updated: ProbabilityNode): (result: seq<ProbabilityNode>)
    ensures |result| == |nodes|
    ensures forall i :: 0 <= i < |nodes| ==>
      result[i] == (if nodes[i].id == updated.id then updated else nodes[i])
    ensures forall i :: 0 <= i < |nodes| ==> result[i].id == nodes[i].id
  {
    if nodes == [] then []
    else [if nodes[0].id == updated.id then updated else nodes[0]] + ReplaceById(nodes[1..], updated)
  }

  /** With no node carrying the id, the update leaves the list as it was. */
  lemma ReplaceByIdNoMatch(nodes: seq<ProbabilityNode>, updated: ProbabilityNode)
    requires forall i :: 0 <= i < |nodes| ==> nodes[i].id != updated.id
    ensures ReplaceById(nodes, updated) == nodes
  {
  }

  /** Committing the same node twice is the same as committing it once. */
  lemma ReplaceByIdIdempotent(nodes: seq<ProbabilityNode>, updated: ProbabilityNode)
    ensures ReplaceById(ReplaceById(nodes, updated), updated) == ReplaceById(nodes, updated)
  {
  }

  predicate UniqueIds(nodes: seq<ProbabilityNode>) {
    forall i, j :: 0 <= i < j < |nodes| ==> nodes[i].id != nodes[j].id
  }

  /**
   * A node edited by a card handler keeps its id, so committing it replaces
   * exactly its own slot when ids are unique.
   */
  lemma ReplaceEditedNode(nodes: seq<ProbabilityNode>, k: nat, edited: ProbabilityNode)
    requires UniqueIds(nodes) && k < |nodes| && edited.id == nodes[k].id
    ensures ReplaceById(nodes, edited) == nodes[k := edited]
  {
  }

  /** The `filter` of handleDeleteNode: keep the nodes whose id differs. */
  function RemoveById(nodes: seq<ProbabilityNode>, nodeId: string): (kept: seq<ProbabilityNode>)
    ensures |kept| <= |nodes|
    ensures forall k :: 0 <= k < |kept| ==> kept[k].id != nodeId
  {
    if nodes == [] then []
    else (if nodes[0].id != nodeId then [nodes[0]] else []) + RemoveById(nodes[1..], nodeId)
  }

  /** Exactly the nodes with a different id survive the deletion. */
  lemma {:induction false} RemoveByIdMembers(nodes: seq<ProbabilityNode>, nodeId: string, x: ProbabilityNode)
    ensures x in RemoveById(nodes, nodeId) <==> x in nodes && x.id != nodeId
  {
    if nodes != [] {
      RemoveByIdMembers(nodes[1..], nodeId, x);
      assert nodes == [nodes[0]] + nodes[1..];
    }
  }

  /** Deleting distributes over concatenation, so the kept nodes keep their relative order. */
  lemma {:induction false} RemoveByIdConcat(a: seq<ProbabilityNode>, b: seq<ProbabilityNode>, nodeId: string)
    ensures RemoveById(a + b, nodeId) == RemoveById(a, nodeId) + RemoveById(b, nodeId)
  {
    if a == [] {
      assert a + b == b;
    } else {
      var head := if a[0].id != nodeId then [a[0]] else [];
      assert a + b == [a[0]] + (a[1..] + b);
      assert RemoveById(a + b, nodeId) == head + RemoveById(a[1..] + b, nodeId);
      assert RemoveById(a, nodeId) == head + RemoveById(a[1..], nodeId);
      RemoveByIdConcat(a[1..], b, nodeId);
    }
  }

  /** Deleting an id no node carries changes nothing. */
  lemma {:induction false} RemoveByIdNoMatch(nodes: seq<ProbabilityNode>, nodeId: string)
    requires forall i :: 0 <= i < |nodes| ==> nodes[i].id != nodeId
    ensures RemoveById(nodes, nodeId) == nodes
  {
    if nodes != [] {
      RemoveByIdNoMatch(nodes[1..], nodeId);
    }
  }

  /** The name handleAddNode gives the node appended after `count` nodes. */
  function NewNodeName(count: nat): (name: string)
    requires count < MaxLetteredNodes
    ensures |name| == 11 && name[..10] == "Escenario "
    ensures name[10] as int == 65 + count
  {
    "Escenario " + [(65 + count) as char]
  }

  /** allNodesValid: every node's branches pass validation, that is, no node reports an error. */
  predicate AllNodesValid(nodes: seq<ProbabilityNode>): (ok: bool)
    ensures ok <==> forall i :: 0 <= i < |nodes| ==> Validation(nodes[i].branches).errors == []
  {
    forall i :: 0 <= i < |nodes| ==> Validation(nodes[i].branches).isValid
  }

  /** The tree is flagged valid iff, in every node, the sum rule holds and every probability is in range. */
  lemma AllNodesValidIff(nodes: seq<ProbabilityNode>)
    ensures AllNodesValid(nodes) <==>
      forall i :: 0 <= i < |nodes| ==>
        !SumOff(Total(nodes[i].branches)) &&
        forall j :: 0 <= j < |nodes[i].branches| ==> !OutOfRange(nodes[i].branches[j])
  {
    forall i | 0 <= i < |nodes| {
      ValidIff(nodes[i].branches);
    }
  }

  predicate AllConsistent(nodes: seq<ProbabilityNode>) {
    forall i :: 0 <= i < |nodes| ==> Consistent(nodes[i])
  }

  /** Removing nodes keeps every remaining node consistent. */
  lemma RemoveByIdKeepsConsistent(nodes: seq<ProbabilityNode>, nodeId: string)
    requires AllConsistent(nodes)
    ensures AllConsistent(RemoveById(nodes, nodeId))
  {
    var kept := RemoveById(nodes, nodeId);
    forall i | 0 <= i < |kept|
      ensures Consistent(kept[i])
    {
      RemoveByIdMembers(nodes, nodeId, kept[i]);
    }
  }

  /** The tree the screen starts with and Reset restores: two scenarios with distinct ids. */
  function DefaultTree(): (t: DecisionTree)
    ensures |t.nodes| == 2 && UniqueIds(t.nodes)
    ensures forall i :: 0 <= i < |t.nodes| ==> |t.nodes[i].branches| == DefaultBranchCount
    ensures t.finalExpectedValue == 0.0
  {
    DecisionTree(
      [InitialNode("node1", "Escenario A", DefaultBranchCount),
       InitialNode("node2", "Escenario B", DefaultBranchCount)],
      0.0)
  }

  /** The default tree is consistent, valid, and its aggregate is 0. */
  lemma DefaultTreeFacts()
    ensures DefaultTree().finalExpectedValue == TreeValue(DefaultTree().nodes) == 0.0
    ensures AllConsistent(DefaultTree().nodes)
    ensures AllNodesValid(DefaultTree().nodes)
  {
    var nodes := DefaultTree().nodes;
    InitialNodeConsistent("node1", "Escenario A", DefaultBranchCount);
    InitialNodeConsistent("node2", "Escenario B", DefaultBranchCount);
    InitialNodeValid("node1", "Escenario A", DefaultBranchCount);
    InitialNodeValid("node2", "Escenario B", DefaultBranchCount);
    TreeValueUniform(nodes, 0.0);
  }

  // ---------------------------------------------------------------------------
  // The component state

  class DecisionTreeComponent {
    var tree: DecisionTree

    /** The cached aggregate agrees with the nodes. */
    ghost predicate Valid()
      reads this
    {
      tree.finalExpectedValue == TreeValue(tree.nodes)
    }

    /** The initial state: two default scenarios and an aggregate of 0. */
    constructor ()
      ensures Valid() && tree == DefaultTree()
      ensures AllConsistent(tree.nodes)
    {
      var first := CreateInitialNode("node1", "Escenario A", DefaultBranchCount);
      var second := CreateInitialNode("node2", "Escenario B", DefaultBranchCount);
      tree := DecisionTree([first, second], 0.0);
      DefaultTreeFacts();
    }

    /** The effect that recomputes the aggregate whenever the node list changes. */
    method RecomputeFinal()
      modifies this
      ensures Valid()
      ensures tree == old(tree).(finalExpectedValue := TreeValue(old(tree).nodes))
    {
      var newFinalValue := TreeValue(tree.nodes);
      tree := tree.(finalExpectedValue := newFinalValue);
    }

    /** handleUpdateNode, followed by the recompute effect. */
    method UpdateNode(updatedNode: ProbabilityNode)
      modifies this
      ensures Valid()
      ensures tree.nodes == ReplaceById(old(tree.nodes), updatedNode)
      ensures AllConsistent(old(tree.nodes)) && Consistent(updatedNode) ==> AllConsistent(tree.nodes)
    {
      tree := tree.(nodes := ReplaceById(tree.nodes, updatedNode));
      RecomputeFinal();
    }

    /** handleAddNode, followed by the recompute effect; `newNodeId` stands for the clock-based id. */
    method AddNode(newNodeId: string)
      requires |tree.nodes| < MaxLetteredNodes
      modifies this
      ensures Valid()
      ensures tree.nodes == old(tree.nodes) + [InitialNode(newNodeId, NewNodeName(|old(tree.nodes)|), DefaultBranchCount)]
      ensures AllConsistent(old(tree.nodes)) ==> AllConsistent(tree.nodes)
    {
      var newNode := CreateInitialNode(newNodeId, NewNodeName(|tree.nodes|), DefaultBranchCount);
      tree := tree.(nodes := tree.nodes + [newNode]);
      RecomputeFinal();
    }

    /** handleDeleteNode, followed by the recompute effect. */
    method DeleteNode(nodeId: string)
      modifies this
      ensures Valid()
      ensures tree.nodes == RemoveById(old(tree.nodes), nodeId)
      ensures AllConsistent(old(tree.nodes)) ==> AllConsistent(tree.nodes)
    {
      if AllConsistent(tree.nodes) {
        RemoveByIdKeepsConsistent(tree.nodes, nodeId);
      }
      tree := tree.(nodes := RemoveById(tree.nodes, nodeId));
      RecomputeFinal();
    }

    /** handleCalculate: recompute the aggregate; in a valid state nothing changes. */
    method Calculate()
      modifies this
      ensures Valid()
      ensures tree.nodes == old(tree.nodes)
      ensures old(Valid()) ==> tree == old(tree)
    {
      var newFinalValue := TreeValue(tree.nodes);
      tree := tree.(finalExpectedValue := newFinalValue);
    }

    /** handleReset: back to two default scenarios with an aggregate of 0. */
    method Reset()
      modifies this
      ensures Valid() && tree == DefaultTree()
      ensures AllConsistent(tree.nodes) && AllNodesValid(tree.nodes)
    {
      var first := CreateInitialNode("node1", "Escenario A", DefaultBranchCount);
      var second := CreateInitialNode("node2", "Escenario B", DefaultBranchCount);
      tree := DecisionTree([first, second], 0.0);
      DefaultTreeFacts();
    }
  }
}
