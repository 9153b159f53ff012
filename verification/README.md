# PR2 proxies: determinised operators and the replanning context

This project models the adaptation layer of the PR2 planner that lets a
deterministic Fast Downward search work on determinised nondeterministic
actions (`src/search/pr2/fd_integration/pr2_proxies.h`):

- **Partial states** (`PartialStates`): one slot per task variable, `-1`
  (`UNKNOWN`) for an unknown value; `FactPair` is a (variable, value) pair.
- **Group names** (`NondetNames`): `get_nondet_name` truncates an operator
  name at the first `"_DETDUP"`. `std::string::find` is `FindFrom`/`Find`,
  with `None` standing for `npos`; `substr(0, npos)` keeps the whole name.
- **Operator view** (`Operators`): the `Operator` datatype (index, name,
  axiom flag, preconditions, nondet index and outcome), the
  `is_possibly_applicable` and `compute_conflict_var` loops as methods, each
  proved against a specification function (`PossiblyApplicable`,
  `ConflictVar`), and lemmas about those functions.
- **Task view** (`Tasks`): the class `TaskView` with the static operators
  and the original initial state as constants, and the replanning context
  (current initial state, current goals, nondet index map) as fields that
  the `set_*` methods overwrite. The pointers that the source leaves
  uninitialised are `Option` fields, `None` after construction, and their
  getters require `Some`. The loops inside the `set_goal` overloads are the
  methods `CollectGoalPairs` and `ToFactPairs`.

Modelling decisions about the code:
- Goals are an ordered `seq<FactPair>`, as the code's `vector<FactPair>`.
- A name without the marker decodes to itself, because `substr(0, npos)`
  keeps the whole name.
- Reading an unset context field is a precondition, because the code would
  return an uninitialised pointer there.
- The operator at position `k` of the task has id `k` (`_index` at lines
  45-46, `operator[](OperatorID)` at lines 122-124); `TaskView` keeps this
  as `OperatorsIndexed()`.

## Model

| member | source | states |
|---|---|---|
| NondetNames.FindFrom | src/search/pr2/fd_integration/pr2_proxies.h:56 | `find` gives the first position at or after the start where the pattern occurs, or `None` (npos) when it occurs nowhere after it |
| NondetNames.NondetName | src/search/pr2/fd_integration/pr2_proxies.h:52-57 | the group name is a prefix of the operator name and holds no marker; with a marker, the first one starts right after the prefix; without one, the name is unchanged |
| NondetNames.NondetNameIdempotent | src/search/pr2/fd_integration/pr2_proxies.h:52-57 | truncating a group name again changes nothing |
| NondetNames.NondetNameOfVariant | src/search/pr2/fd_integration/pr2_proxies.h:52-57 | a name `group + "_DETDUP" + rest` decodes to `group` whenever `group` holds no marker |
| NondetNames.MoveLeftExample | src/search/pr2/fd_integration/pr2_proxies.h:52-57 | `"move-left_DETDUP_2"` decodes to group `"move-left"` |
| Operators.IsPossiblyApplicable | src/search/pr2/fd_integration/pr2_proxies.h:79-88 | returns false exactly when some precondition (v, d) has `s[v] != -1` and `s[v] != d` |
| Operators.ComputeConflictVar | src/search/pr2/fd_integration/pr2_proxies.h:89-96 | returns -1 exactly when the operator is possibly applicable; otherwise the variable of the first contradicted precondition, all earlier ones being unknown or satisfied |
| Operators.ConflictVarNoneIffApplicable | src/search/pr2/fd_integration/pr2_proxies.h:79-96 | the conflict scan finds nothing if and only if the applicability scan succeeds |
| Operators.ConflictVarIsFirst | src/search/pr2/fd_integration/pr2_proxies.h:89-95 | a reported variable belongs to the first precondition, in order, that the state contradicts |
| Operators.MoreInformationOnlyRestricts | src/search/pr2/fd_integration/pr2_proxies.h:79-88 | if s2 keeps every value s assigns, possibly applicable in s2 implies possibly applicable in s |
| Operators.AllUnknownPossiblyApplicable | src/search/pr2/fd_integration/pr2_proxies.h:79-96 | against the all-unknown state every operator is possibly applicable and no variable conflicts |
| Operators.ResolvingUnknownCanRestrict | src/search/pr2/fd_integration/pr2_proxies.h:79-88 | the converse of monotonicity fails: resolving an unknown slot can make an operator inapplicable |
| Tasks.AssignedPairsExact | src/search/pr2/fd_integration/pr2_proxies.h:195-201 | the goal pairs of a state are exactly its assigned slots with their values, in strictly increasing variable order, one per assigned variable |
| Tasks.CollectGoalPairs | src/search/pr2/fd_integration/pr2_proxies.h:195-201 | the collection loop over slots 0 .. size-1 yields exactly the assigned slots, in order |
| Tasks.ToFactPairs | src/search/pr2/fd_integration/pr2_proxies.h:204-209 | the conversion keeps length and order and maps each (a, b) to FactPair(a, b) |
| Tasks.AsWrittenGoalScanReadsPastEnd | src/search/pr2/fd_integration/pr2_proxies.h:197-200 | the loop bound `i <= state.size()` visits index size, which is outside every state |
| Tasks.TaskView.constructor | src/search/pr2/fd_integration/pr2_proxies.h:143 | keeps the operators, whose ids are their positions, and the original initial state; the map, initial state and goals are unset |
| Tasks.TaskView.GetOperator | src/search/pr2/fd_integration/pr2_proxies.h:114-124 | returns the operator at a position of the task, whose id is that position, with its nondet index and outcome |
| Tasks.TaskView.SetNondetIndexMap | src/search/pr2/fd_integration/pr2_proxies.h:149-151 | installs the map and leaves the replanning context unchanged |
| Tasks.TaskView.GetNondetIndex | src/search/pr2/fd_integration/pr2_proxies.h:152-154 | returns the installed map's entry for the operator id |
| Tasks.TaskView.GetNondetIndexOf | src/search/pr2/fd_integration/pr2_proxies.h:158-160 | looks an operator up by its own index in the installed map |
| Tasks.TaskView.GenerateNewInit | src/search/pr2/fd_integration/pr2_proxies.h:169-171 | returns the original initial state, whatever initial states were installed since, and changes nothing |
| Tasks.TaskView.SetInitialState | src/search/pr2/fd_integration/pr2_proxies.h:183-185 | the current initial state becomes the argument; goals and map unchanged |
| Tasks.TaskView.GetInitialState | src/search/pr2/fd_integration/pr2_proxies.h:186-188 | returns the installed initial state |
| Tasks.TaskView.SetGoalFacts | src/search/pr2/fd_integration/pr2_proxies.h:192-194 | the current goals become the given facts; initial state and map unchanged |
| Tasks.TaskView.SetGoalPairs | src/search/pr2/fd_integration/pr2_proxies.h:204-211 | the current goals become the pairs read as facts, in order; initial state and map unchanged |
| Tasks.TaskView.SetGoalFromState | src/search/pr2/fd_integration/pr2_proxies.h:195-203 | the current goals become the assigned slots of the state as facts, in variable order; initial state and map unchanged |
| Tasks.TaskView.GetGoals | src/search/pr2/fd_integration/pr2_proxies.h:212-214 | returns the installed goals |

## Left out

- `PR2OperatorProxy::dump`, `dump_pddl_state`, `dump_fdr_state`: output to stdout only.
- `new_deadend_heuristic`: it only constructs a heuristic object of another component; there is no logic to model.
- `update_nondet_info`: its body is not part of this model, so `nondetIndex` and `nondetOutcome` are given fields of `Operator` and the outcome number is not decoded from the name.
- `all_fire_context`: a raw back-pointer that no modelled code reads.
- `get_all_effects`: returns the effects unchanged; effects are not modelled.
- `get_fact_name`, `get_variable_name`: they delegate to the abstract task, which is not part of this model.
- `get_nondet_index(OperatorID)`: the same lookup as the `int` overload, so it has no member of its own.
- Pointer aliasing and lifetimes: the constructor stores the address of its by-value `init` parameter (line 143), and `set_goal(vector<pair>)` installs the address of its local vector `goal_facts_` (declared at line 205, passed at line 210, stored at line 193); `set_goal(PR2State)` reaches the same store through that overload (line 202). Those pointers dangle once the call returns. `set_initial_state` and `set_goal(vector<FactPair>)` alias caller storage, so later changes by the caller show through. The model stores owned values instead and does not capture aliasing.
- `PR2OperatorsProxy::operator[]` (lines 114-124) builds a plain `OperatorProxy` and `static_cast`s it to `PR2OperatorProxy&` before copying it (lines 117-118): a downcast to a type the object does not have, which is undefined behaviour, and the copy's `nondet_index`, `nondet_outcome` and `all_fire_context` are never set because `update_nondet_info` does not run for it. `TaskView.GetOperator` returns the intended operator, with its id, nondet index and outcome, and does not model the downcast.
- `PR2State::operator[]` is not part of this model: the preconditions' variables are required to index the state (`PreInRange`), which the unchecked indexing of the source assumes.
- Integer widths: variables and values are unbounded `int`s; the code only compares them, so no wrap-around arises.

## Findings

| source | as written | input that shows it | evidently intended | confidence | as-written member | corrected member |
|---|---|---|---|---|---|---|
| src/search/pr2/fd_integration/pr2_proxies.h:197 | `for (int i = 0; i <= state.size(); i++)` reads `state[state.size()]` | any state; with the empty state the loop reads slot 0 of a state that has no slots | visit slots 0 .. size-1 | high; not executed | Tasks.AsWrittenGoalScanReadsPastEnd | Tasks.CollectGoalPairs |
