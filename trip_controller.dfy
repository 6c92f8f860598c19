/**
 * The trip handlers (createTrip, getTrip, updateTrip, deleteTrip, listTrips)
 * over an in-memory database: the trips table and the budgets, locations and
 * expenses tables that point at it through `trip_id`. The acting user's id is
 * the one the token check decoded; it is passed in as `userId`.
 */
module TripController {
  import opened Results
  import opened JsValues
  import opened TripModel

  /**
   * `if (cond) { updateFields.push('column = ?'); queryParams.push(value); }`
   * for the k-th column: when cond is the source's test for that column and
   * value its parameter, the statement grows to cover the first k + 1 columns.
   */
  method PushIf(ghost b: TripBody, ghost k: nat, cond: bool, c: Column, v: Value, fields: seq<Column>, params: seq<Value>)
    returns (fields': seq<Column>, params': seq<Value>)
    requires k < 6 && c == ColumnAt(k) && (cond <==> Supplied(b, c)) && v == Param(b, c)
    requires fields == SuppliedAmongFirst(b, k) && params == ParamsFor(b, fields)
    ensures fields' == SuppliedAmongFirst(b, k + 1) && params' == ParamsFor(b, fields')
  {
    fields', params' := fields, params;
    if cond {
      ParamsForAppend(b, fields, c);
      fields', params' := fields' + [c], params' + [v];
    }
  }

  /**
   * Builds the SET list and the query parameters of updateTrip's UPDATE
   * statement, pushing one column at a time in the fixed order.
   */
  method BuildUpdate(b: TripBody, tripId: nat) returns (fields: seq<Column>, params: seq<Value>)
    ensures UpdateStatementFor(b, tripId, fields, params)
    ensures fields == [] <==> NothingSupplied(b)
  {
    fields, params := [], [];
    fields, params := PushIf(b, 0, Truthy(b.destination), Destination, b.destination, fields, params);
    fields, params := PushIf(b, 1, Truthy(b.startDate), StartDate, b.startDate, fields, params);
    fields, params := PushIf(b, 2, Truthy(b.endDate), EndDate, b.endDate, fields, params);
    fields, params := PushIf(b, 3, Truthy(b.purpose), Purpose, b.purpose, fields, params);
    fields, params := PushIf(b, 4, b.companions != Undefined, Companions,
                             if Truthy(b.companions) then b.companions else Null, fields, params);
    fields, params := PushIf(b, 5, b.notes != Undefined, Notes, b.notes, fields, params);
    // the trip id goes last, for `WHERE id = ?`
    FinishStatement(b, tripId, fields, params);
    params := params + [Num(tripId)];
  }

  /** Which statement of deleteTrip's transaction the database fails, if any. */
  datatype Step = DeleteBudgets | DeleteLocations | DeleteExpenses | DeleteTripRow | Commit

  /** The contents of all four tables, as a transaction saves them to roll back to. */
  datatype Snapshot = Snapshot(
    trips: map<nat, Trip>,
    budgets: map<nat, Row<Budget>>,
    locations: map<nat, Row<Location>>,
    expenses: map<nat, Row<Expense>>)

  class Database {
    var trips: map<nat, Trip>
    var budgets: map<nat, Row<Budget>>
    var locations: map<nat, Row<Location>>
    var expenses: map<nat, Row<Expense>>
    /** The next AUTO_INCREMENT value of trips.id. */
    var nextTripId: nat

    /**
     * Every trip is stored under its own id, below the next AUTO_INCREMENT
     * value, and every budget, location and expense row points at a trip that
     * exists (the foreign keys of the schema).
     */
    ghost predicate Valid()
      reads this
    {
      0 < nextTripId &&
      (forall id :: id in trips ==> trips[id].id == id && 0 < id < nextTripId) &&
      (forall k :: k in budgets ==> budgets[k].tripId in trips) &&
      (forall k :: k in locations ==> locations[k].tripId in trips) &&
      (forall k :: k in expenses ==> expenses[k].tripId in trips)
    }

    function Snap(): Snapshot
      reads this
    {
      Snapshot(trips, budgets, locations, expenses)
    }

    /** Trip tripId exists and belongs to user userId: `WHERE id = ? AND user_id = ?` finds it. */
    predicate Owns(userId: nat, tripId: nat)
      reads this
    {
      tripId in trips && trips[tripId].userId == userId
    }

    constructor ()
      ensures Valid()
      ensures trips == map[] && budgets == map[] && locations == map[] && expenses == map[]
      ensures nextTripId == 1
    {
      trips, budgets, locations, expenses := map[], map[], map[], map[];
      nextTripId := 1;
    }

    /**
     * createTrip: validates the body and inserts one row under the next id.
     * `now` is the CURRENT_TIMESTAMP the database stamps on the row.
     */
    method CreateTrip(userId: nat, b: TripBody, validDateRange: (Value, Value) -> bool, now: int)
      returns (r: Result<nat, Reason>)
      requires Valid()
      modifies this
      ensures Valid()
      ensures r.Err? <==> ValidateCreate(b, validDateRange).Some?
      ensures r.Err? ==> r.error == ValidateCreate(b, validDateRange).value && unchanged(this)
      ensures r.Ok? ==>
        r.value == old(nextTripId) && r.value !in old(trips) &&
        trips == old(trips)[r.value := NewTrip(r.value, userId, b, now)] &&
        nextTripId == old(nextTripId) + 1 &&
        budgets == old(budgets) && locations == old(locations) && expenses == old(expenses)
    {
      var invalid := ValidateCreate(b, validDateRange);
      if invalid.Some? {
        return Err(invalid.value);
      }
      var id := nextTripId;
      trips := trips[id := NewTrip(id, userId, b, now)];
      nextTripId := nextTripId + 1;
      r := Ok(id);
    }

    /** getTrip: the caller's trip with companions decoded; 404 for a trip that is missing or someone else's. */
    method GetTrip(userId: nat, tripId: nat) returns (r: Result<TripView, Reason>)
      requires Valid()
      ensures r.Err? <==> !Owns(userId, tripId)
      ensures r.Err? ==> r.error == TripNotFound
      ensures r.Ok? ==> r.value.id == tripId && trips[tripId].userId == userId
      ensures r.Ok? ==>
        var t := trips[tripId];
        r.value.destination == t.destination && r.value.startDate == t.startDate &&
        r.value.endDate == t.endDate && r.value.purpose == t.purpose &&
        r.value.notes == t.notes && r.value.createdAt == t.createdAt
      ensures r.Ok? ==>
        (trips[tripId].companions == Null ==> r.value.companions == Arr([])) &&
        (trips[tripId].companions != Null ==> r.value.companions == trips[tripId].companions)
    {
      if tripId !in trips || trips[tripId].userId != userId {
        return Err(TripNotFound);
      }
      r := Ok(View(trips[tripId]));
    }

    /**
     * updateTrip: after the ownership check, sets exactly the supplied
     * columns of that one trip; a body that supplies none is refused.
     */
    method UpdateTrip(userId: nat, tripId: nat, b: TripBody) returns (r: Result<(), Reason>)
      requires Valid()
      modifies this
      ensures Valid()
      ensures !old(Owns(userId, tripId)) ==> r == Err(TripNotFound) && unchanged(this)
      ensures old(Owns(userId, tripId)) && NothingSupplied(b) ==> r == Err(NoFieldsToUpdate) && unchanged(this)
      ensures old(Owns(userId, tripId)) && !NothingSupplied(b) ==>
        r == Ok(()) &&
        trips == old(trips)[tripId := Patched(old(trips)[tripId], b)] &&
        budgets == old(budgets) && locations == old(locations) && expenses == old(expenses) &&
        nextTripId == old(nextTripId)
    {
      if tripId !in trips || trips[tripId].userId != userId {
        return Err(TripNotFound);
      }
      var fields, params := BuildUpdate(b, tripId);
      if |fields| == 0 {
        return Err(NoFieldsToUpdate);
      }
      UpdateStatementPatches(trips[tripId], b, tripId, fields, params);
      trips := trips[tripId := ApplySet(trips[tripId], fields, params)];
      r := Ok(());
    }

    /** Rolls the transaction back: all four tables return to the saved contents. */
    method Rollback(saved: Snapshot)
      modifies this
      ensures trips == saved.trips && budgets == saved.budgets
      ensures locations == saved.locations && expenses == saved.expenses
      ensures nextTripId == old(nextTripId)
    {
      trips, budgets, locations, expenses := saved.trips, saved.budgets, saved.locations, saved.expenses;
    }

    /**
     * deleteTrip: after the ownership check, one transaction deletes the
     * trip's budgets, locations and expenses and then the trip. `failure`
     * names the statement the database fails, if any; then the transaction
     * rolls back and every table is as it was.
     */
    method DeleteTrip(userId: nat, tripId: nat, failure: Option<Step>) returns (r: Result<(), Reason>)
      requires Valid()
      modifies this
      ensures Valid()
      ensures nextTripId == old(nextTripId)
      ensures !old(Owns(userId, tripId)) ==> r == Err(TripNotFound) && unchanged(this)
      ensures old(Owns(userId, tripId)) && failure.Some? ==> r == Err(DatabaseFailure) && Snap() == old(Snap())
      ensures old(Owns(userId, tripId)) && failure.None? ==>
        r == Ok(()) &&
        trips == old(trips) - {tripId} &&
        budgets == Unlinked(old(budgets), tripId) &&
        locations == Unlinked(old(locations), tripId) &&
        expenses == Unlinked(old(expenses), tripId)
    {
      if tripId !in trips || trips[tripId].userId != userId {
        return Err(TripNotFound);
      }
      var saved := Snap();
      assert saved.trips == old(trips) && saved.budgets == old(budgets);
      assert saved.locations == old(locations) && saved.expenses == old(expenses);
      // dependants first, so that no row ever points at a missing trip
      if failure == Some(DeleteBudgets) {
        Rollback(saved);
        return Err(DatabaseFailure);
      }
      budgets := Unlinked(budgets, tripId);
      if failure == Some(DeleteLocations) {
        Rollback(saved);
        return Err(DatabaseFailure);
      }
      locations := Unlinked(locations, tripId);
      if failure == Some(DeleteExpenses) {
        Rollback(saved);
        return Err(DatabaseFailure);
      }
      expenses := Unlinked(expenses, tripId);
      if failure == Some(DeleteTripRow) {
        Rollback(saved);
        return Err(DatabaseFailure);
      }
      trips := trips - {tripId};
      if failure.Some? {
        assert failure.value.Commit?;
        Rollback(saved);
        return Err(DatabaseFailure);
      }
      r := Ok(());
    }

    /**
     * listTrips: checks the sort parameters, then answers one page of the
     * caller's trips with the pagination figures. A negative LIMIT or OFFSET
     * is refused by the database.
     */
    method ListTrips(userId: nat, q: ListQuery) returns (r: Result<Listing, Reason>)
      requires Valid()
      ensures
        var sortBy := q.sortBy.GetOr("start_date");
        var sortOrder := q.sortOrder.GetOr("ASC");
        (ValidateSort(sortBy, sortOrder).Some? ==> r == Err(ValidateSort(sortBy, sortOrder).value)) &&
        (r.Ok? <==> ValidateSort(sortBy, sortOrder).None? && q.limit.GetOr(10) >= 0 &&
                    (q.page.GetOr(1) - 1) * q.limit.GetOr(10) >= 0)
      ensures r.Err? && r.error != InvalidSortField && r.error != InvalidSortOrder ==> r.error == DatabaseFailure
      ensures r.Ok? ==>
        var page := q.page.GetOr(1);
        var limit := q.limit.GetOr(10);
        var p := Paginate(page, limit, |OwnedTripIds(trips, userId)|);
        r.value.total == |OwnedTripIds(trips, userId)| &&
        r.value.totalPages == p.totalPages &&
        r.value.currentPage == page && r.value.itemsPerPage == limit &&
        |r.value.data| == (if p.offset >= r.value.total then 0 else Min(limit, r.value.total - p.offset))
      ensures r.Ok? ==>
        forall i :: 0 <= i < |r.value.data| ==>
          r.value.data[i].id in trips && trips[r.value.data[i].id].userId == userId &&
          r.value.data[i] == Summary(trips[r.value.data[i].id])
      ensures r.Ok? ==>
        forall i, j :: 0 <= i < j < |r.value.data| ==> r.value.data[i].id != r.value.data[j].id
    {
      var page := q.page.GetOr(1);
      var limit := q.limit.GetOr(10);
      var sortBy := q.sortBy.GetOr("start_date");
      var sortOrder := q.sortOrder.GetOr("ASC");
      var invalid := ValidateSort(sortBy, sortOrder);
      if invalid.Some? {
        return Err(invalid.value);
      }
      // COUNT(*) of the caller's trips
      var ids := OwnedIds(trips, userId, nextTripId);
      OwnedIdsCount(trips, userId, nextTripId);
      var total := |ids|;
      var p := Paginate(page, limit, total);
      if limit < 0 || p.offset < 0 {
        return Err(DatabaseFailure);
      }
      var pageIds := Window(ids, p.offset, limit);
      OwnedPage(trips, userId, nextTripId, p.offset, limit);
      var data := Summaries(trips, pageIds);
      r := Ok(Listing(data, total, p.totalPages, page, limit));
    }
  }
}
