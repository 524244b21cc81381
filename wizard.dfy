/**
 * The step reducer of the web console's Wizard component
 * (pkg/webui/components/wizard/wizard.js).
 *
 * The reducer is a pure function from a state object and an action to a new
 * state object. A JavaScript state object `{step, ...rest}` is modelled as the
 * numeric `step` plus the map of its other keys; `{...state, step: n}` copies
 * every other key and replaces `step`.
 */
module Wizard {

  const NEXT_STEP: string := "NEXT_STEP"
  const PREV_STEP: string := "PREV_STEP"

  /** `initialStepNumber` when the component is given none (Wizard.defaultProps). */
  const DEFAULT_INITIAL_STEP_NUMBER: int := 1

  /** An action object; only its `type` is read by the reducer. */
  datatype Action = Action(actionType: string)

  /** A state object: `step` and every other key it carries, with their values. */
  datatype State<V> = State(step: int, rest: map<string, V>)

  /** The state `React.useReducer` starts from: `{step: initialStepNumber}`, nothing else. */
  function InitialState<V>(initialStepNumber: int): (s: State<V>)
    ensures s.step == initialStepNumber && s.rest == map[]
  {
    State(initialStepNumber, map[])
  }

  /** The initial state of a Wizard given no `initialStepNumber`: step 1, nothing else. */
  function DefaultInitialState<V>(): (s: State<V>)
    ensures s.step == 1 && s.rest == map[]
  {
    InitialState(DEFAULT_INITIAL_STEP_NUMBER)
  }

  /** The reducer: NEXT_STEP and PREV_STEP move the step by one, any other action is ignored. */
  function Reduce<V>(state: State<V>, action: Action): (r: State<V>)
    ensures action.actionType == NEXT_STEP ==> r.step == state.step + 1
    ensures action.actionType == PREV_STEP ==> r.step == state.step - 1
    ensures action.actionType != NEXT_STEP && action.actionType != PREV_STEP ==> r == state
    ensures r.rest == state.rest
  {
    if action.actionType == NEXT_STEP then
      state.(step := state.step + 1)
    else if action.actionType == PREV_STEP then
      state.(step := state.step - 1)
    else
      state
  }

  /** The state after dispatching `actions` in order, as `useReducer` does. */
  function Run<V>(state: State<V>, actions: seq<Action>): State<V>
    decreases actions
  {
    if actions == [] then state else Run(Reduce(state, actions[0]), actions[1..])
  }

  /** The number of actions of type `t` in `actions`. */
  function CountType(actions: seq<Action>, t: string): (n: nat)
    ensures n <= |actions|
  {
    if actions == [] then 0
    else (if actions[0].actionType == t then 1 else 0) + CountType(actions[1..], t)
  }

  /** NEXT then PREV gives back the original state. */
  lemma NextThenPrev<V>(s: State<V>)
    ensures Reduce(Reduce(s, Action(NEXT_STEP)), Action(PREV_STEP)) == s
  {
  }

  /** PREV then NEXT gives back the original state. */
  lemma PrevThenNext<V>(s: State<V>)
    ensures Reduce(Reduce(s, Action(PREV_STEP)), Action(NEXT_STEP)) == s
  {
  }

  /**
   * Any sequence of dispatches moves the step by the number of NEXT_STEP
   * actions minus the number of PREV_STEP actions, and never touches the other keys.
   */
  lemma {:induction false} RunMovesStep<V>(s: State<V>, actions: seq<Action>)
    ensures Run(s, actions).step == s.step + CountType(actions, NEXT_STEP) - CountType(actions, PREV_STEP)
    ensures Run(s, actions).rest == s.rest
    decreases actions
  {
    if actions != [] {
      RunMovesStep(Reduce(s, actions[0]), actions[1..]);
    }
  }

  /** Two dispatch sequences with the same NEXT/PREV balance reach the same state. */
  lemma RunDependsOnlyOnBalance<V>(s: State<V>, a: seq<Action>, b: seq<Action>)
    requires CountType(a, NEXT_STEP) - CountType(a, PREV_STEP) == CountType(b, NEXT_STEP) - CountType(b, PREV_STEP)
    ensures Run(s, a) == Run(s, b)
  {
    RunMovesStep(s, a);
    RunMovesStep(s, b);
  }
}
