/**
 * The values the trip controller works on: request bodies, rows of the
 * trips, budgets, locations and expenses tables, the column list an update
 * builds, and the checks and arithmetic of listing. Everything here is pure;
 * the handlers that change the tables are in module TripController.
 */
module TripModel {
  import opened Results
  import opened JsValues
  import opened Collections

  /**
   * Why a trip handler refuses a request. All but the last are `ApiError`s the
   * controller throws: TripNotFound with status 404, the others with 400.
   * DatabaseFailure is a query that throws inside the database driver.
   */
  datatype Reason =
    | MissingFields        // 'Missing required fields'
    | BadDateRange         // 'End date must be after start date'
    | CompanionsNotArray   // 'Companions must be an array'
    | TripNotFound         // 'Trip not found'
    | NoFieldsToUpdate     // 'No fields to update'
    | InvalidSortField     // 'Invalid sort field'
    | InvalidSortOrder     // 'Invalid sort order'
    | DatabaseFailure

  /** The fields of a create or update request body; `Undefined` where the key is absent. */
  datatype TripBody = TripBody(
    destination: Value, startDate: Value, endDate: Value, purpose: Value,
    companions: Value, notes: Value)

  /**
   * A row of the `trips` table. `companions` is SQL NULL (`Null`) or the JSON
   * text of a value, which is modelled by the value it encodes.
   */
  datatype Trip = Trip(
    id: nat, userId: nat,
    destination: Value, startDate: Value, endDate: Value, purpose: Value,
    companions: Value, notes: Value,
    createdAt: int)

  // ---------------------------------------------------------------------
  // createTrip

  predicate HasRequired(b: TripBody) {
    Truthy(b.destination) && Truthy(b.startDate) && Truthy(b.endDate) && Truthy(b.purpose)
  }

  /**
   * The three checks of createTrip, in order; `validDateRange` is the date
   * check of the validators module, which is not part of this model.
   */
  function ValidateCreate(b: TripBody, validDateRange: (Value, Value) -> bool): (r: Option<Reason>)
    ensures r == Some(MissingFields) <==> !HasRequired(b)
    ensures r == Some(BadDateRange) <==> HasRequired(b) && !validDateRange(b.startDate, b.endDate)
    ensures r == Some(CompanionsNotArray) <==>
      HasRequired(b) && validDateRange(b.startDate, b.endDate) && Truthy(b.companions) && !b.companions.Arr?
    ensures r == None <==>
      HasRequired(b) && validDateRange(b.startDate, b.endDate) && (b.companions.Arr? || !Truthy(b.companions))
  {
    if !HasRequired(b) then Some(MissingFields)
    else if !validDateRange(b.startDate, b.endDate) then Some(BadDateRange)
    else if Truthy(b.companions) && !b.companions.Arr? then Some(CompanionsNotArray)
    else None
  }

  /** The row createTrip inserts: companions as JSON text when truthy, else NULL; notes or NULL. */
  function NewTrip(id: nat, userId: nat, b: TripBody, now: int): Trip {
    Trip(id, userId, b.destination, b.startDate, b.endDate, b.purpose,
         if Truthy(b.companions) then b.companions else Null,
         if Truthy(b.notes) then b.notes else Null,
         now)
  }

  /** A trip that passed validation stores a list of companions or NULL, and notes that are truthy or NULL. */
  lemma CreatedTripColumns(id: nat, userId: nat, b: TripBody, now: int, validDateRange: (Value, Value) -> bool)
    requires ValidateCreate(b, validDateRange) == None
    ensures NewTrip(id, userId, b, now).companions.Arr? <==> Truthy(b.companions)
    ensures NewTrip(id, userId, b, now).companions == Null <==> !Truthy(b.companions)
    ensures Truthy(b.notes) ==> NewTrip(id, userId, b, now).notes == b.notes
    ensures !Truthy(b.notes) ==> NewTrip(id, userId, b, now).notes == Null
  {
  }

  // ---------------------------------------------------------------------
  // getTrip

  /** What getTrip returns for a row: the stored columns, companions decoded. */
  datatype TripView = TripView(
    id: nat, destination: Value, startDate: Value, endDate: Value, purpose: Value,
    companions: Value, notes: Value, createdAt: int)

  function View(t: Trip): TripView {
    TripView(t.id, t.destination, t.startDate, t.endDate, t.purpose,
             if t.companions == Null then Arr([]) else t.companions,
             t.notes, t.createdAt)
  }

  /**
   * Round trip of companions through createTrip and getTrip: a list comes
   * back as the identical ordered list, and no list comes back as the empty
   * list.
   */
  lemma CompanionsRoundTrip(id: nat, userId: nat, b: TripBody, now: int, validDateRange: (Value, Value) -> bool)
    requires ValidateCreate(b, validDateRange) == None
    ensures b.companions.Arr? ==> View(NewTrip(id, userId, b, now)).companions == b.companions
    ensures !b.companions.Arr? ==> View(NewTrip(id, userId, b, now)).companions == Arr([])
  {
  }

  // ---------------------------------------------------------------------
  // updateTrip

  /** The columns updateTrip can set, declared in the order it considers them. */
  datatype Column = Destination | StartDate | EndDate | Purpose | Companions | Notes

  /** Position of a column in updateTrip's fixed order. */
  function Rank(c: Column): nat {
    match c
    case Destination => 0
    case StartDate => 1
    case EndDate => 2
    case Purpose => 3
    case Companions => 4
    case Notes => 5
  }

  /** The body field that feeds a column. */
  function Field(b: TripBody, c: Column): Value {
    match c
    case Destination => b.destination
    case StartDate => b.startDate
    case EndDate => b.endDate
    case Purpose => b.purpose
    case Companions => b.companions
    case Notes => b.notes
  }

  /** The stored value of a column. */
  function ColumnValue(t: Trip, c: Column): Value {
    match c
    case Destination => t.destination
    case StartDate => t.startDate
    case EndDate => t.endDate
    case Purpose => t.purpose
    case Companions => t.companions
    case Notes => t.notes
  }

  /** One `column = ?` assignment of an UPDATE statement. */
  function Assign(t: Trip, c: Column, v: Value): (u: Trip)
    ensures ColumnValue(u, c) == v
    ensures forall d :: d != c ==> ColumnValue(u, d) == ColumnValue(t, d)
    ensures u.id == t.id && u.userId == t.userId && u.createdAt == t.createdAt
  {
    match c
    case Destination => t.(destination := v)
    case StartDate => t.(startDate := v)
    case EndDate => t.(endDate := v)
    case Purpose => t.(purpose := v)
    case Companions => t.(companions := v)
    case Notes => t.(notes := v)
  }

  /**
   * Whether updateTrip sets column c: the first four when their value is
   * truthy, companions and notes whenever the key is present at all.
   */
  predicate Supplied(b: TripBody, c: Column) {
    match c
    case Companions => b.companions != Undefined
    case Notes => b.notes != Undefined
    case _ => Truthy(Field(b, c))
  }

  /** The query parameter bound to column c: companions as JSON text when truthy, else NULL; any other field as given. */
  function Param(b: TripBody, c: Column): Value {
    if c == Companions then (if Truthy(b.companions) then b.companions else Null) else Field(b, c)
  }

  predicate InUpdateOrder(fields: seq<Column>) {
    forall i, j :: 0 <= i < j < |fields| ==> Rank(fields[i]) < Rank(fields[j])
  }

  /**
   * `fields` and `params` are the update statement for body b and trip tripId:
   * exactly the supplied columns, in the fixed order, one parameter per
   * column, and the trip id last for the WHERE clause.
   */
  predicate UpdateStatementFor(b: TripBody, tripId: nat, fields: seq<Column>, params: seq<Value>) {
    (forall c :: c in fields <==> Supplied(b, c)) &&
    InUpdateOrder(fields) &&
    |params| == |fields| + 1 &&
    (forall i :: 0 <= i < |fields| ==> params[i] == Param(b, fields[i])) &&
    params[|fields|] == Num(tripId)
  }

  /** The column considered k-th by updateTrip. */
  function ColumnAt(k: nat): (c: Column)
    requires k < 6
    ensures Rank(c) == k
  {
    [Destination, StartDate, EndDate, Purpose, Companions, Notes][k]
  }

  /** The supplied columns among the first k, in the fixed order. */
  function SuppliedAmongFirst(b: TripBody, k: nat): seq<Column>
    requires k <= 6
  {
    if k == 0 then []
    else SuppliedAmongFirst(b, k - 1) + (if Supplied(b, ColumnAt(k - 1)) then [ColumnAt(k - 1)] else [])
  }

  /** One parameter per listed column. */
  function ParamsFor(b: TripBody, fields: seq<Column>): seq<Value> {
    if fields == [] then [] else ParamsFor(b, fields[..|fields| - 1]) + [Param(b, fields[|fields| - 1])]
  }

  lemma ParamsForAppend(b: TripBody, fields: seq<Column>, c: Column)
    ensures ParamsFor(b, fields + [c]) == ParamsFor(b, fields) + [Param(b, c)]
  {
    assert (fields + [c])[..|fields|] == fields;
  }

  lemma {:induction false} ParamsForAt(b: TripBody, fields: seq<Column>)
    ensures |ParamsFor(b, fields)| == |fields|
    ensures forall i :: 0 <= i < |fields| ==> ParamsFor(b, fields)[i] == Param(b, fields[i])
    decreases |fields|
  {
    if fields != [] {
      ParamsForAt(b, fields[..|fields| - 1]);
    }
  }

  /** The first k columns considered: exactly the supplied ones of rank below k, in increasing rank. */
  lemma {:induction false} SuppliedAmongFirstMeaning(b: TripBody, k: nat)
    requires k <= 6
    ensures forall c :: c in SuppliedAmongFirst(b, k) <==> Rank(c) < k && Supplied(b, c)
    ensures forall i :: 0 <= i < |SuppliedAmongFirst(b, k)| ==> Rank(SuppliedAmongFirst(b, k)[i]) < k
    ensures InUpdateOrder(SuppliedAmongFirst(b, k))
  {
    if k > 0 {
      SuppliedAmongFirstMeaning(b, k - 1);
      var c := ColumnAt(k - 1);
      forall d | Rank(d) == k - 1 ensures d == c {
      }
    }
  }

  /** Once all six columns are considered, appending the trip id completes the update statement. */
  lemma FinishStatement(b: TripBody, tripId: nat, fields: seq<Column>, params: seq<Value>)
    requires fields == SuppliedAmongFirst(b, 6) && params == ParamsFor(b, fields)
    ensures UpdateStatementFor(b, tripId, fields, params + [Num(tripId)])
    ensures fields == [] <==> NothingSupplied(b)
  {
    SuppliedAmongFirstMeaning(b, 6);
    ParamsForAt(b, fields);
    StatementOfColumns(b, tripId, fields, params);
  }

  lemma StatementOfColumns(b: TripBody, tripId: nat, fields: seq<Column>, params: seq<Value>)
    requires forall c :: c in fields <==> Rank(c) < 6 && Supplied(b, c)
    requires InUpdateOrder(fields)
    requires |params| == |fields|
    requires forall i :: 0 <= i < |fields| ==> params[i] == Param(b, fields[i])
    ensures UpdateStatementFor(b, tripId, fields, params + [Num(tripId)])
    ensures fields == [] <==> NothingSupplied(b)
  {
    assert forall c :: Rank(c) < 6;
    if fields != [] {
      assert fields[0] in fields;
    }
  }

  /** The update statement of a body is unique: only one column list has the supplied columns in the fixed order. */
  lemma {:induction false} UpdateOrderUnique(a: seq<Column>, b: seq<Column>)
    requires InUpdateOrder(a) && InUpdateOrder(b)
    requires forall c :: c in a <==> c in b
    ensures a == b
  {
    SameElementsBothEmpty(a, b);
    if a != [] {
      // the first element of each is the one of least rank
      FirstHasLeastRank(b, a[0]);
      FirstHasLeastRank(a, b[0]);
      assert a[0] == b[0];
      forall c | c in a[1..] ensures c in b[1..] {
        var i :| 0 <= i < |a[1..]| && a[1..][i] == c;
        assert Rank(a[0]) < Rank(a[i + 1]);
        assert c in b;
        var j :| 0 <= j < |b| && b[j] == c;
        assert j != 0;
        assert b[1..][j - 1] == c;
      }
      forall c | c in b[1..] ensures c in a[1..] {
        var j :| 0 <= j < |b[1..]| && b[1..][j] == c;
        assert Rank(b[0]) < Rank(b[j + 1]);
        assert c in a;
        var i :| 0 <= i < |a| && a[i] == c;
        assert i != 0;
        assert a[1..][i - 1] == c;
      }
      UpdateOrderUnique(a[1..], b[1..]);
      assert a == [a[0]] + a[1..];
      assert b == [b[0]] + b[1..];
    }
  }

  lemma SameElementsBothEmpty(a: seq<Column>, b: seq<Column>)
    requires forall c :: c in a <==> c in b
    ensures a == [] <==> b == []
  {
    if a != [] {
      assert a[0] in b;
    }
    if b != [] {
      assert b[0] in a;
    }
  }

  lemma FirstHasLeastRank(a: seq<Column>, c: Column)
    requires InUpdateOrder(a) && c in a
    ensures Rank(a[0]) <= Rank(c)
  {
    var k :| 0 <= k < |a| && a[k] == c;
    if k != 0 {
      assert Rank(a[0]) < Rank(a[k]);
    }
  }

  /** Executing `UPDATE trips SET fields[0] = ?, fields[1] = ?, ...` on one row. */
  function ApplySet(t: Trip, fields: seq<Column>, params: seq<Value>): Trip
    requires |params| >= |fields|
    decreases |fields|
  {
    if fields == [] then t else ApplySet(Assign(t, fields[0], params[0]), fields[1..], params[1..])
  }

  /** With no column listed twice, each listed column ends up holding its own parameter and every other column is untouched. */
  lemma {:induction false} ApplySetColumn(t: Trip, fields: seq<Column>, params: seq<Value>, c: Column)
    requires |params| >= |fields|
    requires forall i, j :: 0 <= i < j < |fields| ==> fields[i] != fields[j]
    ensures ApplySet(t, fields, params).id == t.id
    ensures ApplySet(t, fields, params).userId == t.userId
    ensures ApplySet(t, fields, params).createdAt == t.createdAt
    ensures c !in fields ==> ColumnValue(ApplySet(t, fields, params), c) == ColumnValue(t, c)
    ensures forall i :: 0 <= i < |fields| && fields[i] == c ==> ColumnValue(ApplySet(t, fields, params), c) == params[i]
    decreases |fields|
  {
    if fields != [] {
      var u := Assign(t, fields[0], params[0]);
      ApplySetColumn(u, fields[1..], params[1..], c);
      assert ApplySet(t, fields, params) == ApplySet(u, fields[1..], params[1..]);
      forall k | 0 <= k < |fields[1..]| ensures fields[1..][k] != fields[0] {
        assert fields[k + 1] != fields[0];
      }
      forall i | 0 < i < |fields| && fields[i] == c
        ensures ColumnValue(ApplySet(t, fields, params), c) == params[i]
      {
        assert fields[1..][i - 1] == c;
        assert params[1..][i - 1] == params[i];
      }
    }
  }

  /** The row updateTrip should leave: each supplied column takes its parameter, every other column keeps its value. */
  function Patched(t: Trip, b: TripBody): Trip {
    Trip(t.id, t.userId,
         if Supplied(b, Destination) then Param(b, Destination) else t.destination,
         if Supplied(b, StartDate) then Param(b, StartDate) else t.startDate,
         if Supplied(b, EndDate) then Param(b, EndDate) else t.endDate,
         if Supplied(b, Purpose) then Param(b, Purpose) else t.purpose,
         if Supplied(b, Companions) then Param(b, Companions) else t.companions,
         if Supplied(b, Notes) then Param(b, Notes) else t.notes,
         t.createdAt)
  }

  /** Running the update statement built for body b on a row gives exactly the patched row. */
  lemma UpdateStatementPatches(t: Trip, b: TripBody, tripId: nat, fields: seq<Column>, params: seq<Value>)
    requires UpdateStatementFor(b, tripId, fields, params)
    ensures ApplySet(t, fields, params) == Patched(t, b)
  {
    var u := ApplySet(t, fields, params);
    forall c ensures ColumnValue(u, c) == ColumnValue(Patched(t, b), c) {
      ApplySetColumn(t, fields, params, c);
      if c in fields {
        var i :| 0 <= i < |fields| && fields[i] == c;
        assert params[i] == Param(b, c);
      }
    }
    ApplySetColumn(t, fields, params, Destination);
    assert ColumnValue(u, Destination) == ColumnValue(Patched(t, b), Destination);
    assert ColumnValue(u, StartDate) == ColumnValue(Patched(t, b), StartDate);
    assert ColumnValue(u, EndDate) == ColumnValue(Patched(t, b), EndDate);
    assert ColumnValue(u, Purpose) == ColumnValue(Patched(t, b), Purpose);
    assert ColumnValue(u, Companions) == ColumnValue(Patched(t, b), Companions);
    assert ColumnValue(u, Notes) == ColumnValue(Patched(t, b), Notes);
  }

  /** No field is supplied exactly when the update statement has no column. */
  predicate NothingSupplied(b: TripBody) {
    forall c :: !Supplied(b, c)
  }

  // ---------------------------------------------------------------------
  // deleteTrip: the dependent tables

  /** A row of budgets, locations or expenses: the trip it belongs to and its other columns. */
  datatype Row<P> = Row(tripId: nat, columns: P)

  /** Money as DECIMAL(10, 2) counted in cents. */
  datatype Budget = Budget(
    travelCost: int, hotelCost: int, foodCost: int, extraCost: int, totalBudget: int, notes: Value)

  /** Coordinates as DECIMAL(_, 8) counted in units of 10^-8 degrees. */
  datatype Location = Location(latitude: int, longitude: int, notes: Value)

  datatype Expense = Expense(category: string, amount: int, description: Value)

  /** `DELETE FROM table WHERE trip_id = ?`: no row of that trip is left, and every other row is kept as it was. */
  function Unlinked<P>(table: map<nat, Row<P>>, tripId: nat): (r: map<nat, Row<P>>)
    ensures r.Keys <= table.Keys
    ensures forall k :: k in r ==> r[k].tripId != tripId
    ensures forall k :: k in table && table[k].tripId != tripId ==> k in r && r[k] == table[k]
  {
    map k | k in table && table[k].tripId != tripId :: table[k]
  }

  // ---------------------------------------------------------------------
  // listTrips

  /** The columns listTrips lets a caller sort by. */
  const SortColumns: seq<string> := ["start_date", "end_date", "destination", "created_at"]

  /** `toUpperCase` on one character; only ASCII letters are modelled. */
  function UpperChar(ch: char): char {
    if 'a' <= ch <= 'z' then (ch as int - 32) as char else ch
  }

  function UpperAscii(s: string): (u: string)
    ensures |u| == |s|
    ensures forall i :: 0 <= i < |s| ==> u[i] == UpperChar(s[i])
  {
    if s == [] then [] else [UpperChar(s[0])] + UpperAscii(s[1..])
  }

  /** The two checks of listTrips, in order: sortBy must be in the allow-list as written, sortOrder is compared upper-cased. */
  function ValidateSort(sortBy: string, sortOrder: string): (r: Option<Reason>)
    ensures r == Some(InvalidSortField) <==> sortBy !in SortColumns
    ensures r == Some(InvalidSortOrder) <==>
      sortBy in SortColumns && UpperAscii(sortOrder) != "ASC" && UpperAscii(sortOrder) != "DESC"
    ensures r == None <==>
      sortBy in SortColumns && (UpperAscii(sortOrder) == "ASC" || UpperAscii(sortOrder) == "DESC")
  {
    if sortBy !in SortColumns then Some(InvalidSortField)
    else if UpperAscii(sortOrder) !in ["ASC", "DESC"] then Some(InvalidSortOrder)
    else None
  }

  predicate IsAsciiLetter(ch: char) {
    'a' <= ch <= 'z' || 'A' <= ch <= 'Z'
  }

  /**
   * Both values spliced into the ORDER BY clause after validation are plain
   * words: sortBy is lower-case letters and underscores, sortOrder three or
   * four letters. Nothing else can be injected through them.
   */
  lemma AcceptedSortIsPlain(sortBy: string, sortOrder: string)
    requires ValidateSort(sortBy, sortOrder) == None
    ensures forall i :: 0 <= i < |sortBy| ==> 'a' <= sortBy[i] <= 'z' || sortBy[i] == '_'
    ensures |sortOrder| == 3 || |sortOrder| == 4
    ensures forall i :: 0 <= i < |sortOrder| ==> IsAsciiLetter(sortOrder[i])
  {
    var u := UpperAscii(sortOrder);
    forall i | 0 <= i < |sortOrder| ensures IsAsciiLetter(sortOrder[i]) {
      assert u[i] == UpperChar(sortOrder[i]);
      assert 'A' <= u[i] <= 'Z';
    }
  }

  /** Ceiling of a / b, as `Math.ceil(a / b)` computes it for integers. */
  function CeilDiv(a: int, b: int): (q: int)
    requires b != 0
    ensures b > 0 ==> (q - 1) * b < a <= q * b
    ensures b < 0 ==> q * b <= a < (q - 1) * b
  {
    if b > 0 then
      var q := (a + b - 1) / b;
      assert q * b + (a + b - 1) % b == a + b - 1;
      q
    else
      var q := (-a - b - 1) / (-b);
      assert q * (-b) + (-a - b - 1) % (-b) == -a - b - 1;
      q
  }

  /** The pagination figures: the row offset and the page count (none when `total / 0` is not a finite number). */
  datatype Pagination = Pagination(offset: int, totalPages: Option<int>)

  function Paginate(page: int, limit: int, total: nat): (p: Pagination)
    ensures p.offset == (page - 1) * limit
    ensures p.totalPages.None? <==> limit == 0
    ensures limit > 0 ==> p.totalPages.Some? && (p.totalPages.value - 1) * limit < total <= p.totalPages.value * limit
  {
    Pagination((page - 1) * limit, if limit == 0 then None else Some(CeilDiv(total, limit)))
  }

  /** A query string for listTrips; `None` where the parameter is absent. */
  datatype ListQuery = ListQuery(page: Option<int>, limit: Option<int>, sortBy: Option<string>, sortOrder: Option<string>)

  /** One entry of the listing: the trip's columns without companions and notes. */
  datatype TripSummary = TripSummary(
    id: nat, destination: Value, startDate: Value, endDate: Value, purpose: Value, createdAt: int)

  function Summary(t: Trip): TripSummary {
    TripSummary(t.id, t.destination, t.startDate, t.endDate, t.purpose, t.createdAt)
  }

  /** The body listTrips answers with: one page of trips and its pagination metadata. */
  datatype Listing = Listing(
    data: seq<TripSummary>, total: nat, totalPages: Option<int>, currentPage: int, itemsPerPage: int)

  /** The ids of the trips of user userId below n, in increasing order. */
  function OwnedIds(trips: map<nat, Trip>, userId: nat, n: nat): (ids: seq<nat>)
    ensures forall id :: id in ids <==> id < n && id in trips && trips[id].userId == userId
    ensures forall i, j :: 0 <= i < j < |ids| ==> ids[i] < ids[j]
    ensures forall i :: 0 <= i < |ids| ==> ids[i] < n
  {
    if n == 0 then []
    else OwnedIds(trips, userId, n - 1) + (if n - 1 in trips && trips[n - 1].userId == userId then [n - 1] else [])
  }

  /** The ids of the trips of user userId: what `WHERE user_id = ?` selects. */
  function OwnedTripIds(trips: map<nat, Trip>, userId: nat): set<nat> {
    set id | id in trips && trips[id].userId == userId
  }

  /** When every id is below n, the enumeration has as many ids as `COUNT(*) ... WHERE user_id = ?` counts. */
  lemma OwnedIdsCount(trips: map<nat, Trip>, userId: nat, n: nat)
    requires forall id :: id in trips ==> id < n
    ensures |OwnedIds(trips, userId, n)| == |OwnedTripIds(trips, userId)|
  {
    var ids := OwnedIds(trips, userId, n);
    DistinctElementsCard(ids);
    assert Elements(ids) == OwnedTripIds(trips, userId);
  }

  function Min(a: int, b: int): int {
    if a <= b then a else b
  }

  /** `LIMIT limit OFFSET offset` over a list of rows. */
  function Window<T>(rows: seq<T>, offset: nat, limit: nat): (w: seq<T>)
    ensures |w| == if offset >= |rows| then 0 else Min(limit, |rows| - offset)
    ensures forall i :: 0 <= i < |w| ==> w[i] == rows[offset + i]
  {
    if offset >= |rows| then [] else rows[offset .. offset + Min(limit, |rows| - offset)]
  }

  /** A page of the caller's ids holds distinct ids of the caller's trips. */
  lemma OwnedPage(trips: map<nat, Trip>, userId: nat, n: nat, offset: nat, limit: nat)
    ensures var page := Window(OwnedIds(trips, userId, n), offset, limit);
      (forall i :: 0 <= i < |page| ==> page[i] in trips && trips[page[i]].userId == userId) &&
      (forall i, j :: 0 <= i < j < |page| ==> page[i] != page[j])
  {
  }

  /** 25 trips listed ten per page: three pages, and the third holds the last five. */
  lemma PaginationExample(ids: seq<nat>)
    requires |ids| == 25
    ensures Paginate(3, 10, 25) == Pagination(20, Some(3))
    ensures Window(ids, 20, 10) == ids[20..]
  {
  }

  function Summaries(trips: map<nat, Trip>, ids: seq<nat>): (s: seq<TripSummary>)
    requires forall i :: 0 <= i < |ids| ==> ids[i] in trips
    ensures |s| == |ids|
    ensures forall i :: 0 <= i < |ids| ==> s[i] == Summary(trips[ids[i]])
  {
    seq(|ids|, i requires 0 <= i < |ids| => Summary(trips[ids[i]]))
  }
}
