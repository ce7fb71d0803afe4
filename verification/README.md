# Decision-tree expected-value calculator — a Dafny model

This project models the core of a decision-tree calculator for comparing scenarios.
A tree holds a list of scenarios, called probability nodes. Each node has branches.
A branch carries a probability in percent, a monetary value and a caption.

The calculator computes four things:

- the expected value of a node: the sum of probability/100 × value over its branches;
- whether a node's probabilities are valid: they must sum to 100 within 0.01, and each must lie in [0, 100];
- the tree's final expected value: the mean of its nodes' cached expected values;
- the effect of the screen's handlers on the tree: create a default node, add, update, delete, recalculate, reset, and the edit handlers of one scenario card.

Modules:

- `TreeTypes` (`tree_types.dfy`): the records `Branch`, `ProbabilityNode`, `DecisionTree` and `ValidationResult`.
- `Calculations` (`calculations.dfy`): the following pieces of `src/utils/calculations.ts`.
  - Expected value. `ExpectedValue` is a left fold like the source's `reduce`. Beside it are its algebra: append, concatenation, slot replacement, linearity in the values, and its equality with a plain sum of terms.
  - Validation. `Validation` is its specification. `ValidateProbabilities` is the loop method proved equal to it. The lemmas state when each error is reported, in what order, and how many.
  - The tree mean `TreeValue`, with its bounds.
- `ProbabilityNodeEdits` (`probability_node.dfy`): the handlers of `src/components/ProbabilityNode.tsx`.
  - Each branch handler copies the branch list into a fresh array, overwrites one slot and emits the node with its expected value recomputed.
  - Their contracts say which fields change, and by how much the expected value moves.
- `DecisionTreeState` (`decision_tree.dfy`): `src/components/DecisionTree.tsx`.
  - `createInitialNode` is a loop method proved equal to the value `InitialNode`.
  - The map and filter of the update and delete handlers are functions with their lemmas.
  - The component's `tree` state is the field of the class `DecisionTreeComponent`. Its invariant `Valid()` says that the cached `finalExpectedValue` equals the mean of the nodes.
  - `UpdateNode`, `AddNode` and `DeleteNode` restore `Valid()` by running `RecomputeFinal`, the recompute effect at `DecisionTree.tsx:48-51`.
  - `Calculate` establishes `Valid()` directly: it computes the mean inline, as `handleCalculate` does.
  - The constructor and `Reset` establish `Valid()` directly: they install the default tree, whose aggregate 0 is its mean by `DefaultTreeFacts`.
- `Decimal` (`decimal.dfy`): decimal rendering of the numbers in the generated ids (`node1-2`) and captions (`Rama 4`). It includes a proof that the rendering is injective, which makes the generated branch ids distinct.

Numbers are modelled as Dafny `real`, so the arithmetic is exact. The source runs on IEEE doubles.

## Model

| member | source | states |
|---|---|---|
| Calculations.ExpectedValue | src/utils/calculations.ts:3-5 | The expected value of no branches is 0. |
| Calculations.ExpectedValueAppend | src/utils/calculations.ts:4 | Appending a branch adds exactly probability/100 × value of that branch. |
| Calculations.ExpectedValueConcat | src/utils/calculations.ts:4 | The expected value of a concatenation is the sum of the expected values of the parts. |
| Calculations.ExpectedValueSlot | src/utils/calculations.ts:4 | Replacing the branch at one index changes the expected value by the new term minus the old term. |
| Calculations.ExpectedValueIsSum | src/utils/calculations.ts:4 | The left fold equals the plain sum of the per-branch terms probability/100 × value. |
| Calculations.TermsScaled | src/utils/calculations.ts:4 | Multiplying every value by k multiplies every branch term by k. |
| Calculations.SumScaled | src/utils/calculations.ts:4 | A sum whose elements are each k times another sequence's elements is k times that sum. |
| Calculations.ExpectedValueLinear | src/utils/calculations.ts:3-5 | Multiplying every branch value by k multiplies the expected value by k. |
| Calculations.ExpectedValueExample | src/utils/calculations.ts:3-5 | Branches of 60% × 1000 and 40% × -200 have expected value 520. |
| Calculations.RangeErrors | src/utils/calculations.ts:15-19 | There are at most as many range errors as branches, and every range error names a 1-based position within the branch list. |
| Calculations.Validation | src/utils/calculations.ts:7-25 | validateProbabilities as a value: the sum error, if any, followed by the range errors. `isValid` holds iff the error list is empty, and there are at most one error more than branches. |
| Calculations.ValidateProbabilities | src/utils/calculations.ts:7-25 | The loop that pushes the sum error and then one range error per offending branch returns exactly `Validation(branches)`. `isValid` holds iff the error list is empty. |
| Calculations.SumErrorIff | src/utils/calculations.ts:9-13 | A sum error carrying the total is reported iff the total is more than 0.01 away from 100. When reported, it comes first, and no other error is a sum error. Every sum error in the result carries the total, and it appears only when the sum rule fails. Every range error names a position from 1 to the number of branches. |
| Calculations.RangeErrorIff | src/utils/calculations.ts:15-19 | The range pass reports position i+1 iff branch i's probability is below 0 or above 100. |
| Calculations.ValidationRangeErrorIff | src/utils/calculations.ts:15-19 | The full result holds a range error for position i+1 iff branch i is out of range. |
| Calculations.RangeErrorsOrdered | src/utils/calculations.ts:15-19 | Range errors name strictly increasing positions. |
| Calculations.ValidationRangeErrorsOrdered | src/utils/calculations.ts:11-19 | In the full result, every range error names a smaller position than any error after it. |
| Calculations.CountOutOfRangeAppend | src/utils/calculations.ts:15-19 | Appending a branch raises the out-of-range count by one exactly when that branch is out of range. |
| Calculations.RangeErrorsCount | src/utils/calculations.ts:15-19 | There is one range error per out-of-range branch. |
| Calculations.ValidationErrorCount | src/utils/calculations.ts:7-25 | The number of errors is one for a failed sum rule plus the number of out-of-range branches. |
| Calculations.RangeErrorsEmptyIff | src/utils/calculations.ts:15-19 | No range error is reported iff every probability lies in [0, 100]. |
| Calculations.ValidIff | src/utils/calculations.ts:21-24 | `isValid` holds iff the total is within 0.01 of 100 and every probability lies in [0, 100]. |
| Calculations.EmptyIsInvalid | src/utils/calculations.ts:9-13 | A node with no branches is invalid, because its total of 0 breaks the sum rule. |
| Calculations.WellFormedIsValid | src/utils/calculations.ts:7-25 | In-range probabilities that sum to exactly 100 are valid. |
| Calculations.SumErrorExample | src/utils/calculations.ts:7-25 | Probabilities 50 and 40 give exactly one error: a sum error carrying the total 90. |
| Calculations.TreeValue | src/utils/calculations.ts:27-28 | The aggregate of no nodes is 0. |
| Calculations.ExpectedSumBounds | src/utils/calculations.ts:31 | If every node value lies in [lo, hi], the sum of n node values lies in [n·lo, n·hi]. |
| Calculations.TreeValueBetween | src/utils/calculations.ts:27-33 | For a non-empty list, the mean lies between any lower and upper bound of the node values. |
| Calculations.TreeValueExample | src/utils/calculations.ts:27-33 | Two nodes with expected values 520 and 300 give the aggregate 410. |
| Calculations.TreeValueUniform | src/utils/calculations.ts:27-33 | If every node has the same expected value v, the aggregate is v. |
| ProbabilityNodeEdits.ParsedOrZero | src/components/ProbabilityNode.tsx:20 | An empty or unparsable input reads as 0, and a parsed number is used as it is (the same rule is used at line 34). |
| ProbabilityNodeEdits.CopyBranches | src/components/ProbabilityNode.tsx:17 | Returns a fresh array holding the branches in order. |
| ProbabilityNodeEdits.HandleProbabilityChange | src/components/ProbabilityNode.tsx:16-28 | Only the edited branch's probability changes. It becomes the parsed number, or 0 when the input is empty or does not parse. Id and name are kept. The emitted expected value is recomputed from the new branches, and it moves by the new term minus the old term. |
| ProbabilityNodeEdits.HandleValueChange | src/components/ProbabilityNode.tsx:30-42 | Only the edited branch's value changes. It becomes the parsed number, or 0. The emitted expected value is recomputed, and it moves by the new term minus the old term. |
| ProbabilityNodeEdits.HandleNameChange | src/components/ProbabilityNode.tsx:44-49 | Only the name changes. Branches and the cached expected value pass through, so consistency is kept exactly when it held before. |
| ProbabilityNodeEdits.HandleBranchLabelChange | src/components/ProbabilityNode.tsx:51-63 | Only the edited branch's caption changes. The recomputed expected value equals that of the old branches. |
| ProbabilityNodeEdits.TotalProbability | src/components/ProbabilityNode.tsx:65 | The displayed total is the sum of the branch probabilities, the same total the sum rule checks. A sum error with it is reported iff it is more than 0.01 away from 100, and that error is then first. |
| Decimal.NatToString | src/components/DecisionTree.tsx:14 | Renders a number as a non-empty string of decimal digits without a leading zero. |
| Decimal.DigitsValueOfNatToString | src/components/DecisionTree.tsx:14 | Reading the rendered digits back gives the number. |
| Decimal.NatToStringInjective | src/components/DecisionTree.tsx:14 | Different numbers render to different strings. |
| DecisionTreeState.DefaultLabel | src/components/DecisionTree.tsx:17 | From the fourth branch on, the caption is "Rama " followed by digits that read back as the 1-based branch number. |
| DecisionTreeState.DefaultLabelsDistinct | src/components/DecisionTree.tsx:17 | Different branches get different default captions. |
| DecisionTreeState.DefaultProbability | src/components/DecisionTree.tsx:9-15 | Every default branch gets exactly 100/n, the last one's remainder included, and that share lies in (0, 100]. |
| DecisionTreeState.DefaultBranches | src/components/DecisionTree.tsx:12-19 | The first k default branches, each equal to the branch the loop builds at its index. |
| DecisionTreeState.CreateInitialNode | src/components/DecisionTree.tsx:8-27 | Builds `InitialNode(id, name, n)`. That node has the given id and name and n branches. Branch i has id `id-(i+1)`, the default caption and value 0. The stored expected value 0 equals the computed one. |
| DecisionTreeState.TotalOfEqualShares | src/components/DecisionTree.tsx:9-15 | n branches of equal probability s have total s·n. |
| DecisionTreeState.ShareArithmetic | src/components/DecisionTree.tsx:9-15 | For n ≥ 1 the share 100/n lies in (0, 100], and n shares make 100. The remainder the last branch takes, 100 − (n−1)·100/n, is again 100/n. |
| DecisionTreeState.InitialNodeShares | src/components/DecisionTree.tsx:9-15 | Every default branch, the last included, gets exactly 100/n. |
| DecisionTreeState.TotalOfShares | src/components/DecisionTree.tsx:9-15 | n ≥ 1 branches of 100/n each total exactly 100. |
| DecisionTreeState.InitialNodeTotal | src/components/DecisionTree.tsx:9-15 | For n ≥ 1 the default probabilities sum to exactly 100. |
| DecisionTreeState.InitialNodeValid | src/components/DecisionTree.tsx:8-27 | For n ≥ 1 a default node passes validation. |
| DecisionTreeState.ExpectedValueOfZeroValues | src/components/DecisionTree.tsx:16 | Branches whose values are all 0 have expected value 0. |
| DecisionTreeState.InitialNodeConsistent | src/components/DecisionTree.tsx:16-25 | The stored expected value 0 of a default node equals its computed expected value. |
| DecisionTreeState.InitialNodeIdsDistinct | src/components/DecisionTree.tsx:14 | The generated branch ids `id-1` … `id-n` are pairwise distinct. |
| DecisionTreeState.ReplaceById | src/components/DecisionTree.tsx:56-58 | Same length. Every node whose id matches the updated node's id is replaced by it, and every other node is kept. Ids per position are unchanged. |
| DecisionTreeState.ReplaceByIdNoMatch | src/components/DecisionTree.tsx:56-58 | An update whose id no node carries leaves the list unchanged. |
| DecisionTreeState.ReplaceByIdIdempotent | src/components/DecisionTree.tsx:56-58 | Committing the same node twice equals committing it once. |
| DecisionTreeState.ReplaceEditedNode | src/components/DecisionTree.tsx:53-60 | With unique ids, committing an edited node that keeps its id replaces exactly its own slot. |
| DecisionTreeState.RemoveById | src/components/DecisionTree.tsx:75 | The result is no longer than the input, and no kept node has the deleted id. |
| DecisionTreeState.RemoveByIdMembers | src/components/DecisionTree.tsx:75 | A node is kept iff it was in the list and its id differs from the deleted id. |
| DecisionTreeState.RemoveByIdConcat | src/components/DecisionTree.tsx:75 | Deletion distributes over concatenation, so the kept nodes keep their relative order. |
| DecisionTreeState.RemoveByIdNoMatch | src/components/DecisionTree.tsx:75 | Deleting an id no node carries changes nothing. |
| DecisionTreeState.RemoveByIdKeepsConsistent | src/components/DecisionTree.tsx:72-77 | If every node's cached expected value is consistent, so is every kept node's. |
| DecisionTreeState.NewNodeName | src/components/DecisionTree.tsx:64 | The new node's name is "Escenario " followed by the character with code 65 + the current node count. |
| DecisionTreeState.AllNodesValid | src/components/DecisionTree.tsx:144 | The tree is flagged valid iff no node's validation reports an error. |
| DecisionTreeState.AllNodesValidIff | src/components/DecisionTree.tsx:144 | The tree is flagged valid iff in every node the sum rule holds and every probability lies in [0, 100]. |
| DecisionTreeState.DefaultTree | src/components/DecisionTree.tsx:30-37 | The starting tree, also restored at lines 84-93: two scenarios with distinct ids, three branches each, and aggregate 0. |
| DecisionTreeState.DefaultTreeFacts | src/components/DecisionTree.tsx:30-37 | The starting tree has aggregate 0, which equals the mean of its nodes. Its nodes are consistent and valid. |
| DecisionTreeState.DecisionTreeComponent.constructor | src/components/DecisionTree.tsx:30-37 | The initial state is two default scenarios, `node1` "Escenario A" and `node2` "Escenario B", with aggregate 0. The invariant holds. |
| DecisionTreeState.DecisionTreeComponent.RecomputeFinal | src/components/DecisionTree.tsx:48-51 | Sets the aggregate to the mean of the nodes and changes nothing else. |
| DecisionTreeState.DecisionTreeComponent.UpdateNode | src/components/DecisionTree.tsx:53-60 | The nodes become `ReplaceById` of the old nodes and the aggregate is recomputed. Consistent nodes stay consistent when the committed node is consistent. |
| DecisionTreeState.DecisionTreeComponent.AddNode | src/components/DecisionTree.tsx:62-70 | Appends a default three-branch node with the given id and the lettered name, then recomputes the aggregate. Consistency is preserved. |
| DecisionTreeState.DecisionTreeComponent.DeleteNode | src/components/DecisionTree.tsx:72-77 | The nodes become `RemoveById` of the old nodes, the aggregate is recomputed, and consistency is preserved. |
| DecisionTreeState.DecisionTreeComponent.Calculate | src/components/DecisionTree.tsx:79-82 | Recomputes the aggregate without touching the nodes. In a state where the invariant already held, nothing changes. |
| DecisionTreeState.DecisionTreeComponent.Reset | src/components/DecisionTree.tsx:84-93 | Restores the default tree, whose nodes are consistent and valid, with aggregate 0. |

## Left out

- The rendering (JSX), `TreeVisualization.tsx`, `App.tsx` and the icons are user interface, not logic.
- `formatCurrency` and the wording of the error messages are left out, including `toFixed(2)` of the total. Errors are kept structured instead: `SumError(total)` and `RangeError(position)`.
- Saving to `localStorage`, `prompt`/`alert`, and the JSON export and import handlers are browser I/O.
- The clock-based id `node${Date.now()}` of a new node is a parameter of `AddNode`.
- `parseFloat` is not modelled. A typed input is an `Option<real>`: `None` stands for empty or unparsable text, which the source reads as 0.
- IEEE double arithmetic (rounding, NaN, Infinity) is not modelled; numbers are exact reals. In particular, `createInitialNode` with a branch count of 0 computes `100 / 0` in the source, but that value is never read; the model computes the share per branch, so the case needs no precondition.
- React's batching and asynchronous state updates are not modelled.
  - `UpdateNode`, `AddNode` and `DeleteNode` are followed at once by the recompute effect, which is how the screen settles after they change the node list.
  - `Calculate` recomputes the mean inline and leaves the nodes unchanged, so the effect does not fire.
  - `Reset` installs a tree whose aggregate already equals its mean.
- The `calculationMethod: 'average'` field is set in the initial state but is not part of the `DecisionTree` type. It is never read, so it is not modelled.
- The `label` field of a branch is named `labelText`, because `label` is reserved in Dafny.
- DecisionTreeState.DecisionTreeComponent.AddNode: requires fewer than 0xD800 − 65 nodes, so the name's character code 65 + count stays below the surrogates.
  - This excludes more than the surrogate codes 0xD800–0xDFFF, which a Dafny `char` cannot hold.
  - It also excludes the ordinary characters from 0xE000 to 0xFFFF.
  - It also excludes codes from 0x10000 up, which `String.fromCharCode` reduces modulo 2^16.
  - For those counts the model does not say which name the source gives.
  - `DecisionTreeState.NewNodeName` carries the same requirement.
