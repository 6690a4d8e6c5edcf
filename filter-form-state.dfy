/**
 * The filter screen's form state: a three-field record updated by a
 * reducer, and the hook object that holds the current state and offers one
 * setter per field.
 */
module FilterFormState {
  import opened Wrappers

  /** `NumberRange`: a `[min, max]` pair. */
  type NumberRange = (real, real)

  /** `FilterState`; `None` stands for an unset hazard flag (`undefined`). */
  datatype FilterState = FilterState(
    name: string,
    isPotentiallyHazardous: Option<bool>,
    absoluteMagnitude: NumberRange)

  /**
   * `FilterAction`, by its `type` tag. `Unrecognized` is an action object
   * with any other tag, which the reducer's `default` branch receives.
   */
  datatype FilterAction =
    | SetName(namePayload: string)
    | SetHazardous(hazardPayload: Option<bool>)
    | SetMagnitude(magnitudePayload: NumberRange)
    | Reset(statePayload: FilterState)
    | Unrecognized(actionType: string)

  /** `filterReducer`. */
  function FilterReducer(state: FilterState, action: FilterAction): FilterState
  {
    match action
    case SetName(n) => state.(name := n)
    case SetHazardous(h) => state.(isPotentiallyHazardous := h)
    case SetMagnitude(m) => state.(absoluteMagnitude := m)
    case Reset(p) => p
    case Unrecognized(_) => state
  }

  /** The state after dispatching `actions` in order, starting from `state`. */
  function ReduceAll(state: FilterState, actions: seq<FilterAction>): FilterState
    decreases |actions|
  {
    if |actions| == 0 then state
    else FilterReducer(ReduceAll(state, actions[..|actions| - 1]), actions[|actions| - 1])
  }

  // ----- one action -----

  /** `SET_NAME` replaces the name and nothing else. */
  lemma SetNameOnlyName(state: FilterState, n: string)
    ensures var r := FilterReducer(state, SetName(n));
      r.name == n &&
      r.isPotentiallyHazardous == state.isPotentiallyHazardous &&
      r.absoluteMagnitude == state.absoluteMagnitude
  {
  }

  /** `SET_HAZARDOUS` replaces the hazard flag, possibly with `undefined`, and nothing else. */
  lemma SetHazardousOnlyHazard(state: FilterState, h: Option<bool>)
    ensures var r := FilterReducer(state, SetHazardous(h));
      r.isPotentiallyHazardous == h &&
      r.name == state.name &&
      r.absoluteMagnitude == state.absoluteMagnitude
  {
  }

  /** `SET_MAGNITUDE` replaces the magnitude range and nothing else. */
  lemma SetMagnitudeOnlyMagnitude(state: FilterState, m: NumberRange)
    ensures var r := FilterReducer(state, SetMagnitude(m));
      r.absoluteMagnitude == m &&
      r.name == state.name &&
      r.isPotentiallyHazardous == state.isPotentiallyHazardous
  {
  }

  /** `RESET` returns its payload, whatever the state was. */
  lemma ResetReturnsPayload(state: FilterState, p: FilterState)
    ensures FilterReducer(state, Reset(p)) == p
  {
  }

  /** Any other action leaves the state unchanged. */
  lemma UnrecognizedIsIdentity(state: FilterState, t: string)
    ensures FilterReducer(state, Unrecognized(t)) == state
  {
  }

  /** Dispatching the same action twice is the same as dispatching it once. */
  lemma ReducerIdempotent(state: FilterState, action: FilterAction)
    ensures FilterReducer(FilterReducer(state, action), action) == FilterReducer(state, action)
  {
  }

  /** The setters of different fields commute. */
  lemma SettersCommute(state: FilterState, n: string, h: Option<bool>, m: NumberRange)
    ensures FilterReducer(FilterReducer(state, SetName(n)), SetHazardous(h))
         == FilterReducer(FilterReducer(state, SetHazardous(h)), SetName(n))
    ensures FilterReducer(FilterReducer(state, SetName(n)), SetMagnitude(m))
         == FilterReducer(FilterReducer(state, SetMagnitude(m)), SetName(n))
    ensures FilterReducer(FilterReducer(state, SetHazardous(h)), SetMagnitude(m))
         == FilterReducer(FilterReducer(state, SetMagnitude(m)), SetHazardous(h))
  {
  }

  /** Setting all three fields yields exactly the record of those values. */
  lemma SettersBuildState(state: FilterState, n: string, h: Option<bool>, m: NumberRange)
    ensures ReduceAll(state, [SetName(n), SetHazardous(h), SetMagnitude(m)]) == FilterState(n, h, m)
  {
    var actions := [SetName(n), SetHazardous(h), SetMagnitude(m)];
    assert actions[..2][..1][..0] == [];
    assert ReduceAll(state, actions[..2][..1]).name == n;
    assert ReduceAll(state, actions[..2]) == state.(name := n, isPotentiallyHazardous := h);
  }

  // ----- sequences of actions -----

  /** Dispatching `first` then `rest` is dispatching their concatenation. */
  lemma {:induction false} ReduceAllAppend(state: FilterState, first: seq<FilterAction>, rest: seq<FilterAction>)
    ensures ReduceAll(state, first + rest) == ReduceAll(ReduceAll(state, first), rest)
    decreases |rest|
  {
    if |rest| > 0 {
      var all := first + rest;
      assert all[..|all| - 1] == first + rest[..|rest| - 1];
      assert all[|all| - 1] == rest[|rest| - 1];
      ReduceAllAppend(state, first, rest[..|rest| - 1]);
    } else {
      assert first + rest == first;
    }
  }

  /** A reset forgets everything dispatched before it. */
  lemma ResetForgetsHistory(state: FilterState, before: seq<FilterAction>, p: FilterState, after: seq<FilterAction>)
    ensures ReduceAll(state, before + [Reset(p)] + after) == ReduceAll(p, after)
  {
    ReduceAllAppend(state, before + [Reset(p)], after);
    assert (before + [Reset(p)])[..|before|] == before;
  }

  /** Does `action` assign the name, and with what value? */
  predicate WritesName(action: FilterAction)
  {
    action.SetName? || action.Reset?
  }

  function NameWritten(action: FilterAction): string
    requires WritesName(action)
  {
    if action.SetName? then action.namePayload else action.statePayload.name
  }

  /** The name is whatever the last action writing it wrote. */
  lemma {:induction false} NameIsLastWritten(state: FilterState, actions: seq<FilterAction>, i: nat)
    requires i < |actions| && WritesName(actions[i])
    requires forall j | i < j < |actions| :: !WritesName(actions[j])
    ensures ReduceAll(state, actions).name == NameWritten(actions[i])
    decreases |actions|
  {
    if i < |actions| - 1 {
      NameIsLastWritten(state, actions[..|actions| - 1], i);
    }
  }

  /** Without a `SET_NAME` or `RESET`, the name stays as it was. */
  lemma {:induction false} NameUntouched(state: FilterState, actions: seq<FilterAction>)
    requires forall j | 0 <= j < |actions| :: !WritesName(actions[j])
    ensures ReduceAll(state, actions).name == state.name
    decreases |actions|
  {
    if |actions| > 0 {
      NameUntouched(state, actions[..|actions| - 1]);
    }
  }

  /**
   * `useFilterState`: the state held by `useReducer` and the setters that
   * dispatch to it.
   */
  class FilterStateHook {
    var filterState: FilterState

    /** `useReducer(filterReducer, initialState)`. */
    constructor (initialState: FilterState)
      ensures filterState == initialState
    {
      filterState := initialState;
    }

    /** `dispatch(action)`. */
    method Dispatch(action: FilterAction)
      modifies this
      ensures filterState == FilterReducer(old(filterState), action)
    {
      filterState := FilterReducer(filterState, action);
    }

    /** `setName`: dispatches `SET_NAME` with the given name. */
    method SetName(n: string)
      modifies this
      ensures filterState == FilterReducer(old(filterState), FilterAction.SetName(n))
      ensures filterState == old(filterState).(name := n)
    {
      Dispatch(FilterAction.SetName(n));
    }

    /** `setIsPotentiallyHazardous`: dispatches `SET_HAZARDOUS` with the given flag. */
    method SetIsPotentiallyHazardous(isHazardous: Option<bool>)
      modifies this
      ensures filterState == FilterReducer(old(filterState), SetHazardous(isHazardous))
      ensures filterState == old(filterState).(isPotentiallyHazardous := isHazardous)
    {
      Dispatch(SetHazardous(isHazardous));
    }

    /** `setAbsoluteMagnitude`: dispatches `SET_MAGNITUDE` with the given range. */
    method SetAbsoluteMagnitude(magnitude: NumberRange)
      modifies this
      ensures filterState == FilterReducer(old(filterState), SetMagnitude(magnitude))
      ensures filterState == old(filterState).(absoluteMagnitude := magnitude)
    {
      Dispatch(SetMagnitude(magnitude));
    }
  }
}
