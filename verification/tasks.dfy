/**
 * PR2TaskProxy: the static task plus the replanning context that the outer
 * loop rewrites between planning episodes. The source keeps raw pointers
 * to caller storage; this model stores the values themselves.
 */
module Tasks {
  import opened Wrappers
  import opened PartialStates
  import opened Operators

  /**
   * The (variable, value) pairs of the assigned slots of s, in increasing
   * variable order: what set_goal(PR2State) collects.
   */
  function AssignedPairs(s: PartialState): seq<(int, int)>
    decreases |s|
  {
    if |s| == 0 then []
    else
      var last := |s| - 1;
      AssignedPairs(s[..last]) + (if s[last] != UNKNOWN then [(last, s[last])] else [])
  }

  /**
   * pairs lists exactly the assigned slots of s: each pair is a slot and its
   * value, every assigned slot appears, and variables strictly increase (so
   * each assigned variable appears once).
   */
  predicate ExactlyAssigned(pairs: seq<(int, int)>, s: PartialState)
  {
    (forall k :: 0 <= k < |pairs| ==>
       0 <= pairs[k].0 < |s| && s[pairs[k].0] != UNKNOWN && pairs[k].1 == s[pairs[k].0]) &&
    (forall v :: 0 <= v < |s| && s[v] != UNKNOWN ==> (v, s[v]) in pairs) &&
    (forall k, l :: 0 <= k < l < |pairs| ==> pairs[k].0 < pairs[l].0)
  }

  lemma {:induction false} AssignedPairsExact(s: PartialState)
    ensures ExactlyAssigned(AssignedPairs(s), s)
  {
    if |s| > 0 {
      var last := |s| - 1;
      var init := s[..last];
      AssignedPairsExact(init);
      var prefix := AssignedPairs(init);
      var pairs := AssignedPairs(s);
      var tail := if s[last] != UNKNOWN then [(last, s[last])] else [];
      assert pairs == prefix + tail;
      forall v | 0 <= v < |s| && s[v] != UNKNOWN ensures (v, s[v]) in pairs {
        if v < last {
          assert init[v] == s[v];
          assert (v, s[v]) in prefix;
        } else {
          assert pairs[|pairs| - 1] == (v, s[v]);
        }
      }
      forall k | 0 <= k < |pairs|
        ensures 0 <= pairs[k].0 < |s| && s[pairs[k].0] != UNKNOWN && pairs[k].1 == s[pairs[k].0]
      {
        if k < |prefix| {
          assert pairs[k] == prefix[k];
          assert init[prefix[k].0] == s[prefix[k].0];
        }
      }
      forall k, l | 0 <= k < l < |pairs| ensures pairs[k].0 < pairs[l].0 {
        if l >= |prefix| {
          assert pairs[k] == prefix[k];
        }
      }
    }
  }

  /** The collection loop of set_goal(PR2State), over the slots 0 .. |state| - 1. */
  method CollectGoalPairs(state: PartialState) returns (pairs: seq<(int, int)>)
    ensures pairs == AssignedPairs(state)
    ensures ExactlyAssigned(pairs, state)
  {
    AssignedPairsExact(state);
    pairs := [];
    for i := 0 to |state|
      invariant pairs == AssignedPairs(state[..i])
    {
      assert state[..i + 1][..i] == state[..i];
      if state[i] != UNKNOWN {
        pairs := pairs + [(i, state[i])];
      }
    }
    assert state[..|state|] == state;
  }

  /** Each (a, b) read as FactPair(a, b), in the same order. */
  function FactsOf(pairs: seq<(int, int)>): seq<FactPair>
  {
    seq(|pairs|, k requires 0 <= k < |pairs| => FactPair(pairs[k].0, pairs[k].1))
  }

  /** The conversion loop of set_goal(vector<pair<int, int>>). */
  method ToFactPairs(pairs: seq<(int, int)>) returns (facts: seq<FactPair>)
    ensures |facts| == |pairs|
    ensures forall k :: 0 <= k < |pairs| ==> facts[k] == FactPair(pairs[k].0, pairs[k].1)
  {
    facts := [];
    for i := 0 to |pairs|
      invariant |facts| == i
      invariant forall k :: 0 <= k < i ==> facts[k] == FactPair(pairs[k].0, pairs[k].1)
    {
      facts := facts + [FactPair(pairs[i].0, pairs[i].1)];
    }
  }

  /**
   * The indices that the loop of set_goal(PR2State) visits as written:
   * 0 .. size() inclusive.
   */
  function AsWrittenGoalScan(size: nat): seq<int>
  {
    seq(size + 1, i => i)
  }

  /** The loop as written reads the slot at index size(), one past the end of every state. */
  lemma AsWrittenGoalScanReadsPastEnd(s: PartialState)
    ensures exists k :: 0 <= k < |AsWrittenGoalScan(|s|)| && !(AsWrittenGoalScan(|s|)[k] < |s|)
  {
    assert AsWrittenGoalScan(|s|)[|s|] == |s|;
  }

  class TaskView {
    /** The operators of the static task, which never change. */
    const operators: seq<Operator>
    /** The initial state the session started from. */
    const origInit: PartialState
    /** Operator id to nondet index; unset until SetNondetIndexMap. */
    var nondetIndexMap: Option<seq<int>>
    /** The replanning context; both unset until their first set call. */
    var currentInit: Option<PartialState>
    var currentGoals: Option<seq<FactPair>>

    /** The operator at position k of the task has id k. */
    predicate OperatorsIndexed()
    {
      forall k :: 0 <= k < |operators| ==> operators[k].index == k
    }

    constructor (operators: seq<Operator>, init: PartialState)
      requires forall k :: 0 <= k < |operators| ==> operators[k].index == k
      ensures this.operators == operators && origInit == init
      ensures OperatorsIndexed()
      ensures nondetIndexMap == None && currentInit == None && currentGoals == None
    {
      this.operators := operators;
      origInit := init;
      nondetIndexMap := None;
      currentInit := None;
      currentGoals := None;
    }

    /** PR2OperatorsProxy::operator[]: the operator at a position of the task. */
    method GetOperator(index: nat) returns (op: Operator)
      requires OperatorsIndexed() && index < |operators|
      ensures op == operators[index]
      ensures op.index == index
    {
      op := operators[index];
    }

    method SetNondetIndexMap(nmap: seq<int>)
      modifies this
      ensures nondetIndexMap == Some(nmap)
      ensures currentInit == old(currentInit) && currentGoals == old(currentGoals)
    {
      nondetIndexMap := Some(nmap);
    }

    /** get_nondet_index(int): the entry of the installed map for an operator id. */
    method GetNondetIndex(opId: int) returns (n: int)
      requires nondetIndexMap.Some? && 0 <= opId < |nondetIndexMap.value|
      ensures n == nondetIndexMap.value[opId]
    {
      n := nondetIndexMap.value[opId];
    }

    /** get_nondet_index(OperatorProxy): looks the operator up by its own index. */
    method GetNondetIndexOf(op: Operator) returns (n: int)
      requires nondetIndexMap.Some? && op.index < |nondetIndexMap.value|
      ensures n == nondetIndexMap.value[op.index]
    {
      n := GetNondetIndex(op.index);
    }

    /** A fresh copy of the session's original initial state, whatever was installed since. */
    method GenerateNewInit() returns (s: PartialState)
      ensures s == origInit
    {
      s := origInit;
    }

    method SetInitialState(state: PartialState)
      modifies this
      ensures currentInit == Some(state)
      ensures currentGoals == old(currentGoals) && nondetIndexMap == old(nondetIndexMap)
    {
      currentInit := Some(state);
    }

    method GetInitialState() returns (s: PartialState)
      requires currentInit.Some?
      ensures Some(s) == currentInit
    {
      s := currentInit.value;
    }

    /** set_goal(vector<FactPair>): installs the facts as they are. */
    method SetGoalFacts(goals: seq<FactPair>)
      modifies this
      ensures currentGoals == Some(goals)
      ensures currentInit == old(currentInit) && nondetIndexMap == old(nondetIndexMap)
    {
      currentGoals := Some(goals);
    }

    /** set_goal(vector<pair<int, int>>): converts each pair to a fact, keeping order. */
    method SetGoalPairs(pairs: seq<(int, int)>)
      modifies this
      ensures currentGoals == Some(FactsOf(pairs))
      ensures currentInit == old(currentInit) && nondetIndexMap == old(nondetIndexMap)
    {
      var facts := ToFactPairs(pairs);
      assert facts == FactsOf(pairs);
      SetGoalFacts(facts);
    }

    /** set_goal(PR2State): the goal is the assigned slots of state, in variable order. */
    method SetGoalFromState(state: PartialState)
      modifies this
      ensures currentGoals == Some(FactsOf(AssignedPairs(state)))
      ensures currentInit == old(currentInit) && nondetIndexMap == old(nondetIndexMap)
    {
      var pairs := CollectGoalPairs(state);
      SetGoalPairs(pairs);
    }

    method GetGoals() returns (goals: seq<FactPair>)
      requires currentGoals.Some?
      ensures Some(goals) == currentGoals
    {
      goals := currentGoals.value;
    }
  }
}
