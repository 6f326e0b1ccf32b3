/**
 * The cars store: a mirror of the remote `cars` table plus the filter state
 * that parameterises the query, a `loading` flag that drops a fetch while
 * another call is in flight, and one debounce timer.
 *
 * Every remote round trip is an input of the method that makes it: the
 * select query's answer is a function of the query the store builds, the
 * answers of insert, update and delete are values. Each async method runs as
 * one atomic step.
 */
module Cars {
  import opened Common
  import opened Keyed

  datatype Car = Car(
    id: string,
    clientId: string,
    make: Option<string>,
    model: Option<string>,
    licensePlate: Option<string>,
    color: Option<string>,
    year: Option<int>,
    notes: Option<string>,
    createdAt: string,
    updatedAt: string)

  /** The editable fields of a car; every one of them is optional, so it also serves as the update patch. */
  datatype CarInput = CarInput(
    make: Option<string>,
    model: Option<string>,
    licensePlate: Option<string>,
    color: Option<string>,
    year: Option<int>,
    notes: Option<string>)

  function CarId(c: Car): string { c.id }

  datatype GatewayError = GatewayError(message: string)

  /** Which clauses the select query carries: a clause is present exactly when its filter is non-empty. */
  datatype CarQuery = CarQuery(search: Option<string>, createdFrom: Option<string>, createdTo: Option<string>)

  /** The gateway's answer to a select: rows (possibly `null`) or an error. */
  datatype SelectOutcome = Selected(data: Option<seq<Car>>) | SelectFailed(error: GatewayError)

  /** The gateway's answer to an insert or update with `.single()`: a row (possibly `null`) or an error. */
  datatype RowOutcome = RowReturned(data: Option<Car>) | RowFailed(error: GatewayError)

  datatype DeleteOutcome = DeleteDone | DeleteFailed(error: GatewayError)

  /** How an async call settles: resolved with a value, or rejected with the gateway's error. */
  datatype Completion<T> = Returned(value: T) | Raised(error: GatewayError)

  /** `Partial<{ searchTerm, dateFrom, dateTo }>`: `None` means "not given". */
  datatype FilterPatch = FilterPatch(searchTerm: Option<string>, dateFrom: Option<string>, dateTo: Option<string>)

  function NonEmpty(s: string): Option<string>
  {
    if s == "" then None else Some(s)
  }

  /** The query built from the filter state: `or(...ilike...)`, `gte(created_at)`, `lte(created_at)`. */
  function QueryFor(searchTerm: string, dateFrom: string, dateTo: string): (q: CarQuery)
    ensures q.search.Some? <==> searchTerm != ""
    ensures q.createdFrom.Some? <==> dateFrom != ""
    ensures q.createdTo.Some? <==> dateTo != ""
    ensures q.search.Some? ==> q.search.value == searchTerm
    ensures q.createdFrom.Some? ==> q.createdFrom.value == dateFrom
    ensures q.createdTo.Some? ==> q.createdTo.value == dateTo
  {
    CarQuery(NonEmpty(searchTerm), NonEmpty(dateFrom), NonEmpty(dateTo))
  }

  /** The mirror after a fetch that reached the gateway: its rows on success (none for `null`), nothing on failure. */
  function MirrorAfterSelect(outcome: SelectOutcome): (r: seq<Car>)
    ensures outcome.SelectFailed? ==> r == []
    ensures outcome.Selected? && outcome.data.Some? ==> r == outcome.data.value
    ensures outcome.Selected? && outcome.data.None? ==> r == []
  {
    match outcome
    case Selected(data) => data.GetOr([])
    case SelectFailed(_) => []
  }

  /** The mirror after a successful insert that returned `data`: the new row goes to the front. */
  function Prepended(cars: seq<Car>, data: Option<Car>): (r: seq<Car>)
    ensures data.None? ==> r == cars
    ensures data.Some? ==> |r| == |cars| + 1 && r[0] == data.value && r[1..] == cars
  {
    if data.Some? then [data.value] + cars else cars
  }

  /** The mirror after a successful update of `id` that returned `data`: the first match is replaced in place. */
  function Replaced(cars: seq<Car>, id: string, data: Option<Car>): (r: seq<Car>)
    ensures |r| == |cars|
    ensures data.None? || (forall j :: 0 <= j < |cars| ==> cars[j].id != id) ==> r == cars
    ensures forall j :: 0 <= j < |cars| && r[j] != cars[j] ==>
              cars[j].id == id && data == Some(r[j]) && forall k :: 0 <= k < j ==> cars[k].id != id
    ensures forall j :: 0 <= j < |cars| && cars[j].id == id && data.Some? && (forall k :: 0 <= k < j ==> cars[k].id != id) ==>
              r[j] == data.value
  {
    match FirstIndexOf(cars, CarId, id)
    case None => cars
    case Some(i) => if data.Some? then cars[i := data.value] else cars
  }

  /** With distinct ids, an update that returned a row replaces exactly the car with that id, at its position. */
  lemma ReplacedAt(cars: seq<Car>, id: string, c: Car, i: nat)
    requires DistinctKeys(cars, CarId)
    requires i < |cars| && cars[i].id == id
    ensures Replaced(cars, id, Some(c)) == cars[i := c]
  {
    assert FirstIndexOf(cars, CarId, id) == Some(i);
  }

  /** A delete removes exactly the cars with that id and keeps the others in order. */
  lemma DeleteRemovesExactly(cars: seq<Car>, id: string)
    ensures forall c :: c in Without(cars, CarId, id) <==> c in cars && c.id != id
    ensures forall a, b :: cars == a + b ==>
              Without(cars, CarId, id) == Without(a, CarId, id) + Without(b, CarId, id)
  {
    forall a, b | cars == a + b
      ensures Without(cars, CarId, id) == Without(a, CarId, id) + Without(b, CarId, id)
    {
      WithoutAppend(a, b, CarId, id);
    }
  }

  class CarStore {
    var cars: seq<Car>
    var loading: bool
    var searchTerm: string
    var dateFrom: string
    var dateTo: string
    /** The handle last stored by `debouncedFetch`; like the source, it is never reset after the timer fires. */
    var debounceTimer: Option<nat>
    /** Timers scheduled with the runtime that have neither fired nor been cleared. */
    var pendingTimers: set<nat>
    /** The next handle `setTimeout` hands out; handles are never reused. */
    var nextTimerHandle: nat

    /** At most one timer is pending, and it is the one whose handle the store holds. */
    ghost predicate Valid()
      reads this
    {
      && (forall h :: h in pendingTimers ==> debounceTimer == Some(h))
      && (debounceTimer.Some? ==> debounceTimer.value < nextTimerHandle)
    }

    /** Whether a filter is set, i.e. whether the current query carries any clause. */
    predicate FilterActive(): (b: bool)
      reads this
      ensures b <==> CurrentQuery() != QueryFor("", "", "")
    {
      searchTerm != "" || dateFrom != "" || dateTo != ""
    }

    function CurrentQuery(): CarQuery
      reads this
    {
      QueryFor(searchTerm, dateFrom, dateTo)
    }

    /** The store starts empty with no filters and immediately fetches. */
    constructor (select: CarQuery -> SelectOutcome)
      ensures Valid()
      ensures !loading && searchTerm == "" && dateFrom == "" && dateTo == ""
      ensures debounceTimer == None && pendingTimers == {}
      ensures cars == MirrorAfterSelect(select(QueryFor("", "", "")))
    {
      cars := [];
      loading := false;
      searchTerm, dateFrom, dateTo := "", "", "";
      debounceTimer := None;
      pendingTimers := {};
      nextTimerHandle := 0;
      new;
      var _ := FetchAllCars(select);
    }

    /**
     * `fetchAllCars`: dropped (resolves to no rows, nothing changes) while a call is
     * in flight; otherwise replaces the mirror with the answer to the current query,
     * or empties it and rejects on failure. `loading` is cleared either way.
     */
    method FetchAllCars(select: CarQuery -> SelectOutcome) returns (r: Completion<seq<Car>>)
      modifies this`cars, this`loading
      ensures old(loading) ==> r == Returned([]) && cars == old(cars) && loading
      ensures !old(loading) ==> !loading && cars == MirrorAfterSelect(select(CurrentQuery()))
      ensures !old(loading) ==>
                match select(CurrentQuery())
                case Selected(_) => r == Returned(cars)
                case SelectFailed(e) => r == Raised(e)
    {
      if loading {
        return Returned([]);
      }
      loading := true;
      var outcome := select(CurrentQuery());
      match outcome {
        case Selected(data) =>
          cars := data.GetOr([]);
          r := Returned(cars);
        case SelectFailed(e) =>
          cars := [];
          r := Raised(e);
      }
      loading := false;
    }

    /** `debouncedFetch`: clears the pending timer, if any, and schedules a fresh one. */
    method DebouncedFetch()
      requires Valid()
      modifies this`debounceTimer, this`pendingTimers, this`nextTimerHandle
      ensures Valid()
      ensures pendingTimers == {old(nextTimerHandle)}
      ensures debounceTimer == Some(old(nextTimerHandle))
      ensures nextTimerHandle == old(nextTimerHandle) + 1
    {
      if debounceTimer.Some? {
        pendingTimers := pendingTimers - {debounceTimer.value};
      }
      var handle := nextTimerHandle;
      nextTimerHandle := nextTimerHandle + 1;
      pendingTimers := pendingTimers + {handle};
      debounceTimer := Some(handle);
    }

    /** The runtime fires a pending timer: it runs `fetchAllCars` with the filters as they are now. */
    method TimerFires(h: nat, select: CarQuery -> SelectOutcome)
      requires Valid() && h in pendingTimers
      modifies this`cars, this`loading, this`pendingTimers
      ensures Valid()
      ensures pendingTimers == {}
      ensures old(loading) ==> cars == old(cars) && loading
      ensures !old(loading) ==> !loading && cars == MirrorAfterSelect(select(CurrentQuery()))
    {
      pendingTimers := pendingTimers - {h};
      var _ := FetchAllCars(select);
    }

    method SetSearchTerm(term: string)
      modifies this`searchTerm
      ensures searchTerm == term
    {
      searchTerm := term;
    }

    /** Writes only the filter fields the patch gives, then re-arms the debounce timer. */
    method SetFilters(filters: FilterPatch)
      requires Valid()
      modifies this`searchTerm, this`dateFrom, this`dateTo,
               this`debounceTimer, this`pendingTimers, this`nextTimerHandle
      ensures Valid()
      ensures searchTerm == filters.searchTerm.GetOr(old(searchTerm))
      ensures dateFrom == filters.dateFrom.GetOr(old(dateFrom))
      ensures dateTo == filters.dateTo.GetOr(old(dateTo))
      ensures pendingTimers == {old(nextTimerHandle)} && debounceTimer == Some(old(nextTimerHandle))
    {
      if filters.searchTerm.Some? { searchTerm := filters.searchTerm.value; }
      if filters.dateFrom.Some? { dateFrom := filters.dateFrom.value; }
      if filters.dateTo.Some? { dateTo := filters.dateTo.value; }
      DebouncedFetch();
    }

    /** Clears all three filters, then re-arms the debounce timer. */
    method ResetFilters()
      requires Valid()
      modifies this`searchTerm, this`dateFrom, this`dateTo,
               this`debounceTimer, this`pendingTimers, this`nextTimerHandle
      ensures Valid()
      ensures searchTerm == "" && dateFrom == "" && dateTo == ""
      ensures !FilterActive()
      ensures pendingTimers == {old(nextTimerHandle)} && debounceTimer == Some(old(nextTimerHandle))
    {
      searchTerm := "";
      dateFrom := "";
      dateTo := "";
      DebouncedFetch();
    }

    /** `filteredCars`: filtering happens in the query, so the getter hands out the mirror itself. */
    function FilteredCars(): (r: seq<Car>)
      reads this
      ensures r == cars
    {
      cars
    }

    /**
     * `addCar`: on success the returned row goes to the front of the mirror; on
     * failure the mirror is untouched and the error is re-raised. The refetch the
     * source makes when a filter is active runs while `loading` is set, so it is
     * dropped: nothing here depends on `select` or on the filters.
     */
    method AddCar(clientId: string, car: CarInput, insert: RowOutcome,
                  select: CarQuery -> SelectOutcome) returns (r: Completion<Option<Car>>)
      modifies this`cars, this`loading
      ensures !loading
      ensures insert.RowReturned? ==> cars == Prepended(old(cars), insert.data) && r == Returned(insert.data)
      ensures insert.RowFailed? ==> cars == old(cars) && r == Raised(insert.error)
    {
      loading := true;
      match insert {
        case RowFailed(e) =>
          r := Raised(e);
        case RowReturned(data) =>
          if data.Some? {
            cars := [data.value] + cars;
          }
          if FilterActive() {
            var _ := FetchAllCars(select);
          }
          r := Returned(data);
      }
      loading := false;
    }

    /**
     * `updateCar`: on success the first car with that id is replaced in place by
     * the returned row; the filter-triggered refetch is dropped as in `addCar`.
     */
    method UpdateCar(id: string, updated: CarInput, update: RowOutcome,
                     select: CarQuery -> SelectOutcome) returns (r: Completion<Option<Car>>)
      modifies this`cars, this`loading
      ensures !loading
      ensures update.RowReturned? ==> cars == Replaced(old(cars), id, update.data) && r == Returned(update.data)
      ensures update.RowFailed? ==> cars == old(cars) && r == Raised(update.error)
    {
      loading := true;
      match update {
        case RowFailed(e) =>
          r := Raised(e);
        case RowReturned(data) =>
          var index := FirstIndexOf(cars, CarId, id);
          if index.Some? && data.Some? {
            cars := cars[index.value := data.value];
          }
          if FilterActive() {
            var _ := FetchAllCars(select);
          }
          r := Returned(data);
      }
      loading := false;
    }

    /**
     * `deleteCar`: on success every car with that id leaves the mirror; the
     * filter-triggered refetch is dropped as in `addCar`.
     */
    method DeleteCar(id: string, delete: DeleteOutcome,
                     select: CarQuery -> SelectOutcome) returns (r: Completion<()>)
      modifies this`cars, this`loading
      ensures !loading
      ensures delete.DeleteDone? ==> cars == Without(old(cars), CarId, id) && r == Returned(())
      ensures delete.DeleteFailed? ==> cars == old(cars) && r == Raised(delete.error)
    {
      loading := true;
      match delete {
        case DeleteFailed(e) =>
          r := Raised(e);
        case DeleteDone =>
          cars := Without(cars, CarId, id);
          if FilterActive() {
            var _ := FetchAllCars(select);
          }
          r := Returned(());
      }
      loading := false;
    }

    /**
     * The refetch the write methods evidently intend: with a filter active the
     * guard is cleared first, so the mirror is reloaded with the filtered query.
     * Returns the select's error when it fails.
     */
    method RefetchIfFiltered(select: CarQuery -> SelectOutcome) returns (failure: Option<GatewayError>)
      modifies this`cars, this`loading
      ensures !loading
      ensures !FilterActive() ==> cars == old(cars) && failure == None
      ensures FilterActive() ==> cars == MirrorAfterSelect(select(CurrentQuery()))
      ensures FilterActive() ==> (failure.Some? <==> select(CurrentQuery()).SelectFailed?)
      ensures failure.Some? ==> select(CurrentQuery()) == SelectFailed(failure.value)
    {
      loading := false;
      failure := None;
      if FilterActive() {
        var fetched := FetchAllCars(select);
        if fetched.Raised? {
          failure := Some(fetched.error);
        }
      }
    }

    /** `addCar` with a refetch that takes effect: under a filter the mirror ends as the server's filtered answer. */
    method AddCarRefetching(clientId: string, car: CarInput, insert: RowOutcome,
                            select: CarQuery -> SelectOutcome) returns (r: Completion<Option<Car>>)
      modifies this`cars, this`loading
      ensures !loading
      ensures insert.RowFailed? ==> cars == old(cars) && r == Raised(insert.error)
      ensures insert.RowReturned? && !FilterActive() ==> cars == Prepended(old(cars), insert.data) && r == Returned(insert.data)
      ensures insert.RowReturned? && FilterActive() ==> cars == MirrorAfterSelect(select(CurrentQuery()))
      ensures insert.RowReturned? && FilterActive() ==>
                r == (match select(CurrentQuery()) case Selected(_) => Returned(insert.data) case SelectFailed(e) => Raised(e))
    {
      loading := true;
      match insert {
        case RowFailed(e) =>
          r := Raised(e);
          loading := false;
        case RowReturned(data) =>
          if data.Some? {
            cars := [data.value] + cars;
          }
          var failure := RefetchIfFiltered(select);
          r := if failure.Some? then Raised(failure.value) else Returned(data);
      }
    }

    /** `updateCar` with a refetch that takes effect. */
    method UpdateCarRefetching(id: string, updated: CarInput, update: RowOutcome,
                               select: CarQuery -> SelectOutcome) returns (r: Completion<Option<Car>>)
      modifies this`cars, this`loading
      ensures !loading
      ensures update.RowFailed? ==> cars == old(cars) && r == Raised(update.error)
      ensures update.RowReturned? && !FilterActive() ==> cars == Replaced(old(cars), id, update.data) && r == Returned(update.data)
      ensures update.RowReturned? && FilterActive() ==> cars == MirrorAfterSelect(select(CurrentQuery()))
      ensures update.RowReturned? && FilterActive() ==>
                r == (match select(CurrentQuery()) case Selected(_) => Returned(update.data) case SelectFailed(e) => Raised(e))
    {
      loading := true;
      match update {
        case RowFailed(e) =>
          r := Raised(e);
          loading := false;
        case RowReturned(data) =>
          var index := FirstIndexOf(cars, CarId, id);
          if index.Some? && data.Some? {
            cars := cars[index.value := data.value];
          }
          var failure := RefetchIfFiltered(select);
          r := if failure.Some? then Raised(failure.value) else Returned(data);
      }
    }

    /** `deleteCar` with a refetch that takes effect. */
    method DeleteCarRefetching(id: string, delete: DeleteOutcome,
                               select: CarQuery -> SelectOutcome) returns (r: Completion<()>)
      modifies this`cars, this`loading
      ensures !loading
      ensures delete.DeleteFailed? ==> cars == old(cars) && r == Raised(delete.error)
      ensures delete.DeleteDone? && !FilterActive() ==> cars == Without(old(cars), CarId, id) && r == Returned(())
      ensures delete.DeleteDone? && FilterActive() ==> cars == MirrorAfterSelect(select(CurrentQuery()))
      ensures delete.DeleteDone? && FilterActive() ==>
                r == (match select(CurrentQuery()) case Selected(_) => Returned(()) case SelectFailed(e) => Raised(e))
    {
      loading := true;
      match delete {
        case DeleteFailed(e) =>
          r := Raised(e);
          loading := false;
        case DeleteDone =>
          cars := Without(cars, CarId, id);
          var failure := RefetchIfFiltered(select);
          r := if failure.Some? then Raised(failure.value) else Returned(());
      }
    }
  }

  /** A car row with the given id and no optional fields. */
  function SampleCar(id: string): Car
  {
    Car(id, "client-1", None, None, None, None, None, None, "2024-01-01T00:00:00Z", "2024-01-01T00:00:00Z")
  }

  /** A server whose every select answers with the given rows. */
  function AlwaysAnswers(rows: seq<Car>): CarQuery -> SelectOutcome
  {
    (q: CarQuery) => Selected(Some(rows))
  }

  /**
   * With a search term set and a server whose filtered answer is empty, the
   * inserted row stays in the mirror: the refetch was dropped. The corrected
   * method leaves the mirror equal to the server's answer.
   */
  method AddUnderFilterKeepsUnfilteredRow() returns (asWritten: seq<Car>, corrected: seq<Car>, serverAnswer: seq<Car>)
    ensures asWritten == [SampleCar("car-1")]
    ensures serverAnswer == [] && corrected == serverAnswer
    ensures asWritten != serverAnswer
  {
    var select := AlwaysAnswers([]);
    var store := new CarStore(select);
    store.SetSearchTerm("Audi");
    var _ := store.AddCar("client-1", CarInput(None, None, None, None, None, None), RowReturned(Some(SampleCar("car-1"))), select);
    asWritten := store.cars;
    var fixedStore := new CarStore(select);
    fixedStore.SetSearchTerm("Audi");
    var _ := fixedStore.AddCarRefetching("client-1", CarInput(None, None, None, None, None, None), RowReturned(Some(SampleCar("car-1"))), select);
    corrected := fixedStore.cars;
    serverAnswer := MirrorAfterSelect(select(fixedStore.CurrentQuery()));
  }

  /**
   * With a date filter set, an update whose new row no longer matches stays in
   * the mirror as written; the corrected method reloads the filtered answer.
   */
  method UpdateUnderFilterKeepsUnfilteredRow() returns (asWritten: seq<Car>, corrected: seq<Car>, serverAnswer: seq<Car>)
    ensures asWritten == [SampleCar("car-1")]
    ensures serverAnswer == [] && corrected == serverAnswer
    ensures asWritten != serverAnswer
  {
    var before := AlwaysAnswers([SampleCar("car-1")]);
    var after := AlwaysAnswers([]);
    var patch := CarInput(None, None, None, None, None, None);
    var store := new CarStore(before);
    store.SetFilters(FilterPatch(None, Some("2025-01-01"), None));
    var _ := store.UpdateCar("car-1", patch, RowReturned(Some(SampleCar("car-1"))), after);
    asWritten := store.cars;
    var fixedStore := new CarStore(before);
    fixedStore.SetFilters(FilterPatch(None, Some("2025-01-01"), None));
    var _ := fixedStore.UpdateCarRefetching("car-1", patch, RowReturned(Some(SampleCar("car-1"))), after);
    corrected := fixedStore.cars;
    serverAnswer := MirrorAfterSelect(after(fixedStore.CurrentQuery()));
  }

  /**
   * With a search term set, after a delete the mirror keeps a row the server's
   * filtered answer no longer holds; the corrected method reloads it.
   */
  method DeleteUnderFilterKeepsStaleRow() returns (asWritten: seq<Car>, corrected: seq<Car>, serverAnswer: seq<Car>)
    ensures asWritten == [SampleCar("car-2")]
    ensures serverAnswer == [] && corrected == serverAnswer
    ensures asWritten != serverAnswer
  {
    var before := AlwaysAnswers([SampleCar("car-1"), SampleCar("car-2")]);
    var after := AlwaysAnswers([]);
    var store := new CarStore(before);
    store.SetSearchTerm("Audi");
    var _ := store.DeleteCar("car-1", DeleteDone, after);
    asWritten := store.cars;
    var fixedStore := new CarStore(before);
    fixedStore.SetSearchTerm("Audi");
    var _ := fixedStore.DeleteCarRefetching("car-1", DeleteDone, after);
    corrected := fixedStore.cars;
    serverAnswer := MirrorAfterSelect(after(fixedStore.CurrentQuery()));
  }
}
