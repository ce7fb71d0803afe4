/**
 * The records of the decision-tree calculator (src/types/tree.ts).
 * Probabilities are percentages and values are amounts of money; both are
 * modelled as `real`, so the arithmetic below is exact.
 */
module TreeTypes {

  /** One outcome of a scenario: a weight in percent, a monetary value and a caption
      (`label` in the source; that word is reserved in Dafny). */
  datatype Branch = Branch(id: string, probability: real, value: real, labelText: string)

  /** A scenario; `expectedValue` is a cached value derived from `branches`. */
  datatype ProbabilityNode = ProbabilityNode(
    id: string,
    name: string,
    branches: seq<Branch>,
    expectedValue: real)

  /** The whole tree; `finalExpectedValue` is a cached value derived from `nodes`. */
  datatype DecisionTree = DecisionTree(nodes: seq<ProbabilityNode>, finalExpectedValue: real)

  /**
   * A validation error, kept structured instead of as a formatted message:
   * the probabilities do not sum to 100 (with the actual total), or the
   * branch at the 1-based `position` is outside [0, 100].
   */
  datatype ValidationError = SumError(total: real) | RangeError(position: nat)

  datatype ValidationResult = ValidationResult(isValid: bool, errors: seq<ValidationError>)

  /** A number typed into an input field: None when it is empty or does not parse. */
  datatype Option<T> = None | Some(value: T)
}
