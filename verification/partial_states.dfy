/**
 * Partial states and facts shared by the operator and task views.
 * A partial state (PR2State) holds one slot per task variable; the value -1
 * marks a variable whose value is unknown.
 */
module PartialStates {

  /** A (variable, value) pair, as Fast Downward's FactPair. */
  datatype FactPair = FactPair(variable: int, value: int)

  type PartialState = seq<int>

  /** The sentinel that marks an unassigned slot. */
  const UNKNOWN: int := -1

  /** The all-unknown partial state over n variables. */
  function AllUnknown(n: nat): PartialState
  {
    seq(n, _ => UNKNOWN)
  }

  /**
   * s2 carries at least the information of s: every slot that s assigns
   * keeps its value in s2, and s2 may assign slots that s leaves unknown.
   */
  predicate Extends(s2: PartialState, s: PartialState)
  {
    |s2| == |s| && forall i :: 0 <= i < |s| && s[i] != UNKNOWN ==> s2[i] == s[i]
  }
}
