/** Reusable reducer helpers (`utils/state/stateUtils.ts`): a shallow object
    merge and three small slices of state (loading, pagination, sorting) whose
    reducers update their fields in place. */
module StateUtils {
  import opened Wrappers

  /** `{ ...state, ...payload }` on a record seen as a map from property
      names to values: the payload's properties win, every other property of
      the state is kept. */
  function UpdateObject<K, V>(state: map<K, V>, payload: map<K, V>): (r: map<K, V>)
    ensures r.Keys == state.Keys + payload.Keys
    ensures forall k :: k in payload ==> r[k] == payload[k]
    ensures forall k :: k in state && k !in payload ==> r[k] == state[k]
  {
    state + payload
  }

  /** Applying the same update twice is applying it once. */
  lemma UpdateObjectIdempotent<K, V>(state: map<K, V>, payload: map<K, V>)
    ensures UpdateObject(UpdateObject(state, payload), payload) == UpdateObject(state, payload)
  {
  }

  /** Two updates in a row are one update with the merged payload. */
  lemma UpdateObjectCompose<K, V>(state: map<K, V>, p: map<K, V>, q: map<K, V>)
    ensures UpdateObject(UpdateObject(state, p), q) == UpdateObject(state, UpdateObject(p, q))
  {
  }

  /** An empty payload changes nothing. */
  lemma UpdateObjectEmpty<K, V>(state: map<K, V>)
    ensures UpdateObject(state, map[]) == state
  {
  }

  /** `LoadingState` with `loadingReducers`. */
  class LoadingState {
    var isLoading: bool
    var error: Option<string>

    /** An error is only ever recorded together with the end of loading. */
    ghost predicate Valid()
      reads this
    {
      error.Some? ==> !isLoading
    }

    /** `initialLoadingState`. */
    constructor ()
      ensures !isLoading && error == None
      ensures Valid()
    {
      isLoading := false;
      error := None;
    }

    method StartLoading()
      modifies this
      ensures isLoading && error == None
      ensures Valid()
    {
      isLoading := true;
      error := None;
    }

    method LoadingSuccess()
      modifies this
      ensures !isLoading && error == None
      ensures Valid()
    {
      isLoading := false;
      error := None;
    }

    method LoadingFailed(message: string)
      modifies this
      ensures !isLoading && error == Some(message)
      ensures Valid()
    {
      isLoading := false;
      error := Some(message);
    }
  }

  /** `PaginationState` with `paginationReducers`. */
  class PaginationState {
    var page: int
    var limit: int
    var total: int

    /** `initialPaginationState`: page 1, ten per page, nothing counted. */
    constructor ()
      ensures page == 1 && limit == 10 && total == 0
    {
      page := 1;
      limit := 10;
      total := 0;
    }

    method SetPage(p: int)
      modifies this
      ensures page == p && limit == old(limit) && total == old(total)
    {
      page := p;
    }

    /** Changing the page size goes back to the first page. */
    method SetLimit(l: int)
      modifies this
      ensures limit == l && page == 1 && total == old(total)
    {
      limit := l;
      page := 1;
    }

    method SetTotal(t: int)
      modifies this
      ensures total == t && page == old(page) && limit == old(limit)
    {
      total := t;
    }
  }

  datatype Direction = Asc | Desc

  function Flip(d: Direction): (r: Direction)
    ensures r != d
  {
    if d == Asc then Desc else Asc
  }

  /** `SortingState` with `sortingReducers`. */
  class SortingState {
    var sortBy: Option<string>
    var sortDirection: Direction

    /** `initialSortingState`: unsorted, ascending. */
    constructor ()
      ensures sortBy == None && sortDirection == Asc
    {
      sortBy := None;
      sortDirection := Asc;
    }

    /** `setSorting`: the column already sorted on flips its direction and
        ignores the requested one; another column is sorted on in the
        requested direction, ascending when none is given. */
    method SetSorting(column: string, requested: Option<Direction>)
      modifies this
      ensures old(sortBy) == Some(column) ==> sortBy == old(sortBy) && sortDirection == Flip(old(sortDirection))
      ensures old(sortBy) != Some(column) ==>
                sortBy == Some(column) &&
                sortDirection == (if requested.Some? then requested.value else Asc)
    {
      var direction := if requested.Some? then requested.value else Asc;
      if sortBy == Some(column) {
        sortDirection := if sortDirection == Asc then Desc else Asc;
      } else {
        sortBy := Some(column);
        sortDirection := direction;
      }
    }

    /** `resetSorting`: back to the initial state. */
    method ResetSorting()
      modifies this
      ensures sortBy == None && sortDirection == Asc
    {
      sortBy := None;
      sortDirection := Asc;
    }

    /** A client scenario, not a reducer of the source: selecting a new
        column twice sorts on it in the requested direction and then in the
        other one. */
    method SelectColumnTwice(column: string, requested: Option<Direction>)
      requires sortBy != Some(column)
      modifies this
      ensures sortBy == Some(column)
      ensures sortDirection == Flip(if requested.Some? then requested.value else Asc)
    {
      SetSorting(column, requested);
      SetSorting(column, None);
    }

    /** A client scenario, not a reducer of the source: two selections of the
        column already sorted on restore its direction. */
    method ToggleTwice(column: string)
      requires sortBy == Some(column)
      modifies this
      ensures sortBy == old(sortBy) && sortDirection == old(sortDirection)
    {
      SetSorting(column, None);
      SetSorting(column, Some(Desc));
    }
  }
}
