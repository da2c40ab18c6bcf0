/** The component's state record `appState`, its initial value and the
  * reducer `appReducer`, a shallow `Object.assign` merge. */
module AppState {
  import opened Wrappers

  /** The two ends of the date-range picker, each a `Date` or `null`; a `Date`
    * is represented by its `getTime()` in milliseconds. */
  datatype DateRange = DateRange(start: Option<int>, end: Option<int>)

  /** `appState`. The query may be `undefined`; the category is any string,
    * the selector offering "all", "plugins" and "themes". */
  datatype State = State(
    q: Option<string>,
    category: string,
    dateRange: DateRange,
    darkMode: bool,
    cacheKey: int)

  /** `initialState`. */
  const Initial: State := State(Some(""), "all", DateRange(None, None), true, 0)

  /** A `Partial<appState>`: each field is either absent (`None`) or present with
    * its new value. A present `q` may itself be `undefined`, hence the nested `Option`. */
  datatype Patch = Patch(
    q: Option<Option<string>>,
    category: Option<string>,
    dateRange: Option<DateRange>,
    darkMode: Option<bool>,
    cacheKey: Option<int>)

  const NoChange: Patch := Patch(None, None, None, None, None)

  /** `Object.assign({}, s, p)`: a copy of `s` in which each field present in `p` is overwritten. */
  function Merge(s: State, p: Patch): State {
    State(
      p.q.GetOr(s.q),
      p.category.GetOr(s.category),
      p.dateRange.GetOr(s.dateRange),
      p.darkMode.GetOr(s.darkMode),
      p.cacheKey.GetOr(s.cacheKey))
  }

  /** `p` followed by `p2`: the fields `p2` sets win, the others come from `p`. */
  function Then(p: Patch, p2: Patch): Patch {
    Patch(
      if p2.q.Some? then p2.q else p.q,
      if p2.category.Some? then p2.category else p.category,
      if p2.dateRange.Some? then p2.dateRange else p.dateRange,
      if p2.darkMode.Some? then p2.darkMode else p.darkMode,
      if p2.cacheKey.Some? then p2.cacheKey else p.cacheKey)
  }

  /** `appActionsType`, whose only member is `update`. */
  datatype ActionType = Update

  /** A dispatched action: an optional `type`, an optional `payload`, and the
    * state fields written directly on the action object. */
  datatype Action = Action(kind: Option<ActionType>, payload: Option<Patch>, fields: Patch)

  /** `appReducer`. An `update` action without payload returns a state equal to the
    * previous one, whatever else the action object carries. */
  function Reduce(prev: State, action: Action): (next: State)
    ensures action.kind == Some(Update) && action.payload.None? ==> next == prev
  {
    match action.kind
    case Some(Update) =>
      // `Object.assign` skips an `undefined` source
      if action.payload.Some? then Merge(prev, action.payload.value) else prev
    case None =>
      // `action.payload || action`
      Merge(prev, if action.payload.Some? then action.payload.value else action.fields)
  }

  /** The reset button's `dispatch({ dateRange: [null, null] })`. */
  const ResetDates: Action := Action(None, None, NoChange.(dateRange := Some(DateRange(None, None))))

  /** The merge overwrites exactly the fields the patch supplies and keeps every other field. */
  lemma MergeOverrides(s: State, p: Patch)
    ensures var r := Merge(s, p);
      (r.q == if p.q.Some? then p.q.value else s.q)
      && (r.category == if p.category.Some? then p.category.value else s.category)
      && (r.dateRange == if p.dateRange.Some? then p.dateRange.value else s.dateRange)
      && (r.darkMode == if p.darkMode.Some? then p.darkMode.value else s.darkMode)
      && (r.cacheKey == if p.cacheKey.Some? then p.cacheKey.value else s.cacheKey)
  {
  }

  /** A patch that supplies no field leaves the state as it was. */
  lemma MergeNoChange(s: State)
    ensures Merge(s, NoChange) == s
  {
  }

  /** Dispatching the same patch twice is dispatching it once. */
  lemma MergeIdempotent(s: State, p: Patch)
    ensures Merge(Merge(s, p), p) == Merge(s, p)
  {
  }

  /** Two merges in a row are one merge of the combined patch. */
  lemma MergeThen(s: State, p: Patch, p2: Patch)
    ensures Merge(Merge(s, p), p2) == Merge(s, Then(p, p2))
  {
  }

  /** The merge result depends on the previous state only in the fields the patch leaves out:
    * a patch supplying every field yields the same state whatever came before. */
  lemma MergeFullPatch(s: State, s2: State, p: Patch)
    requires p.q.Some? && p.category.Some? && p.dateRange.Some? && p.darkMode.Some? && p.cacheKey.Some?
    ensures Merge(s, p) == Merge(s2, p)
  {
  }

  /** A payload is merged whether or not the action is tagged `update`; other fields of
    * the action object are then ignored. */
  lemma PayloadWins(prev: State, kind: Option<ActionType>, p: Patch, fields: Patch)
    ensures Reduce(prev, Action(kind, Some(p), fields)) == Merge(prev, p)
  {
  }

  /** An untagged action without a payload is itself the patch, as in `dispatch({ q: value })`. */
  lemma PlainDispatch(prev: State, fields: Patch)
    ensures Reduce(prev, Action(None, None, fields)) == Merge(prev, fields)
  {
  }
}
