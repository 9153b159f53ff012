/**
 * PR2OperatorProxy: a deterministic outcome variant of a nondeterministic
 * action, and its tests against a partial state.
 */
module Operators {
  import opened PartialStates

  /**
   * An operator of the determinised task. nondetIndex and nondetOutcome
   * are given: the source decodes them from the name elsewhere.
   */
  datatype Operator = Operator(
    index: nat,
    name: string,
    isAxiom: bool,
    pre: seq<FactPair>,
    nondetIndex: int,
    nondetOutcome: int)

  /** What compute_conflict_var returns when nothing conflicts. */
  const NO_CONFLICT: int := -1

  /** Every precondition names a slot of s; the source indexes s with it. */
  predicate PreInRange(pre: seq<FactPair>, s: PartialState)
  {
    forall f :: f in pre ==> 0 <= f.variable < |s|
  }

  /** s assigns f's variable a value other than f's; an unknown slot never contradicts. */
  predicate Contradicts(s: PartialState, f: FactPair)
    requires 0 <= f.variable < |s|
  {
    s[f.variable] != UNKNOWN && s[f.variable] != f.value
  }

  /** No precondition is contradicted by an assigned slot of s. */
  predicate PossiblyApplicable(pre: seq<FactPair>, s: PartialState)
    requires PreInRange(pre, s)
  {
    forall i :: 0 <= i < |pre| ==> !Contradicts(s, pre[i])
  }

  /** pre[k] is the first precondition, in order, that s contradicts. */
  predicate FirstConflictAt(pre: seq<FactPair>, s: PartialState, k: int)
    requires PreInRange(pre, s)
  {
    0 <= k < |pre| && Contradicts(s, pre[k]) &&
    forall j :: 0 <= j < k ==> !Contradicts(s, pre[j])
  }

  /** The variable of the first contradicted precondition, or NO_CONFLICT. */
  function ConflictVar(pre: seq<FactPair>, s: PartialState): int
    requires PreInRange(pre, s)
  {
    if |pre| == 0 then NO_CONFLICT
    else if Contradicts(s, pre[0]) then pre[0].variable
    else ConflictVar(pre[1..], s)
  }

  /** compute_conflict_var finds nothing exactly when the operator is possibly applicable. */
  lemma {:induction false} ConflictVarNoneIffApplicable(pre: seq<FactPair>, s: PartialState)
    requires PreInRange(pre, s)
    ensures ConflictVar(pre, s) == NO_CONFLICT <==> PossiblyApplicable(pre, s)
  {
    if |pre| > 0 {
      ConflictVarNoneIffApplicable(pre[1..], s);
      assert PossiblyApplicable(pre, s) <==>
        !Contradicts(s, pre[0]) && PossiblyApplicable(pre[1..], s) by {
        if !Contradicts(s, pre[0]) && PossiblyApplicable(pre[1..], s) {
          forall i | 0 <= i < |pre| ensures !Contradicts(s, pre[i]) {
            if i > 0 { assert pre[i] == pre[1..][i - 1]; }
          }
        }
      }
    }
  }

  /** A reported variable is that of the first contradicted precondition. */
  lemma {:induction false} ConflictVarIsFirst(pre: seq<FactPair>, s: PartialState)
    requires PreInRange(pre, s)
    requires ConflictVar(pre, s) != NO_CONFLICT
    ensures exists k :: FirstConflictAt(pre, s, k) && pre[k].variable == ConflictVar(pre, s)
  {
    if !Contradicts(s, pre[0]) {
      ConflictVarIsFirst(pre[1..], s);
      var k :| FirstConflictAt(pre[1..], s, k) && pre[1..][k].variable == ConflictVar(pre, s);
      assert FirstConflictAt(pre, s, k + 1) by {
        forall j | 0 <= j < k + 1 ensures !Contradicts(s, pre[j]) {
          if j > 0 { assert pre[j] == pre[1..][j - 1]; }
        }
      }
    } else {
      assert FirstConflictAt(pre, s, 0);
    }
  }

  /** is_possibly_applicable: scans the preconditions and stops at the first contradiction. */
  method IsPossiblyApplicable(op: Operator, s: PartialState) returns (b: bool)
    requires PreInRange(op.pre, s)
    ensures b <==> PossiblyApplicable(op.pre, s)
    ensures !b <==> exists i :: 0 <= i < |op.pre| && s[op.pre[i].variable] != UNKNOWN && s[op.pre[i].variable] != op.pre[i].value
  {
    for i := 0 to |op.pre|
      invariant forall j :: 0 <= j < i ==> !Contradicts(s, op.pre[j])
    {
      var pre := op.pre[i];
      if s[pre.variable] != UNKNOWN && s[pre.variable] != pre.value {
        return false;
      }
    }
    return true;
  }

  /** compute_conflict_var: the same scan, returning the offending variable. */
  method ComputeConflictVar(op: Operator, s: PartialState) returns (v: int)
    requires PreInRange(op.pre, s)
    ensures v == ConflictVar(op.pre, s)
    ensures v == NO_CONFLICT <==> PossiblyApplicable(op.pre, s)
    ensures v != NO_CONFLICT ==> exists k :: FirstConflictAt(op.pre, s, k) && op.pre[k].variable == v
  {
    ConflictVarNoneIffApplicable(op.pre, s);
    if ConflictVar(op.pre, s) != NO_CONFLICT {
      ConflictVarIsFirst(op.pre, s);
    }
    for i := 0 to |op.pre|
      invariant ConflictVar(op.pre[i..], s) == ConflictVar(op.pre, s)
    {
      var pre := op.pre[i];
      assert op.pre[i..][1..] == op.pre[i + 1..];
      if s[pre.variable] != UNKNOWN && s[pre.variable] != pre.value {
        return pre.variable;
      }
    }
    return NO_CONFLICT;
  }

  /**
   * More information only restricts: if s2 keeps every value s assigns,
   * an operator possibly applicable in s2 is possibly applicable in s.
   */
  lemma MoreInformationOnlyRestricts(pre: seq<FactPair>, s: PartialState, s2: PartialState)
    requires PreInRange(pre, s) && Extends(s2, s)
    requires PossiblyApplicable(pre, s2)
    ensures PossiblyApplicable(pre, s)
  {
  }

  /** Nothing is known yet: every operator is possibly applicable and no variable conflicts. */
  lemma AllUnknownPossiblyApplicable(pre: seq<FactPair>, n: nat)
    requires PreInRange(pre, AllUnknown(n))
    ensures PossiblyApplicable(pre, AllUnknown(n))
    ensures ConflictVar(pre, AllUnknown(n)) == NO_CONFLICT
  {
  }

  /**
   * The converse of MoreInformationOnlyRestricts fails: resolving an
   * unknown slot can make an operator inapplicable.
   */
  lemma ResolvingUnknownCanRestrict()
    ensures exists pre: seq<FactPair>, s: PartialState, s2: PartialState ::
      PreInRange(pre, s) && Extends(s2, s) &&
      PossiblyApplicable(pre, s) && !PossiblyApplicable(pre, s2)
  {
    var pre, s, s2 := [FactPair(1, 0)], [1, UNKNOWN, 0], [1, 1, 0];
    assert Contradicts(s2, pre[0]);
    assert PreInRange(pre, s) && Extends(s2, s) && PossiblyApplicable(pre, s) && !PossiblyApplicable(pre, s2);
  }
}
