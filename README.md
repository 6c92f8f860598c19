# Trip planner backend: trip controller and forecast date range

This project models, in Dafny, the two pieces of the trip-planning backend
that hold logic of their own:

- The trip handlers of `Backend/middlewares/auth.middleware.js`: `createTrip`,
  `getTrip`, `updateTrip`, `deleteTrip` and `listTrips`. They run over an
  in-memory database, the class `TripController.Database`. It holds the
  `trips` table and the `budgets`, `locations` and `expenses` tables, which
  point at a trip through `trip_id`. Each handler returns a tagged result:
  a value, or a `TripModel.Reason` for the refusal. `TripNotFound` is the
  controller's 404; the other validation reasons are its 400s;
  `DatabaseFailure` is a query that throws.
- The date-range logic of `Backend/services/weather.service.js`:
  `getDatesInRange`, and the filter and map that keep the forecast entries of
  the trip days.

Modules:

- `Results` (results.dfy) holds `Option` and `Result`.
- `JsValues` (js_values.dfy) holds the JSON values a request body can carry
  and JavaScript truthiness. `Undefined` is an absent key. `Null` is JSON null,
  and also SQL NULL once stored.
- `TripModel` (trip_model.dfy) holds pure definitions:
  - rows and request bodies;
  - createTrip's checks;
  - the column list and parameters of updateTrip's UPDATE statement, and what
    executing that statement does to a row;
  - the `DELETE ... WHERE trip_id = ?` of each dependent table;
  - listTrips' sort check and pagination arithmetic.
- `TripController` (trip_controller.dfy) holds the handlers as methods of
  `Database`, plus `BuildUpdate`. `BuildUpdate` pushes onto the field and
  parameter lists one column at a time, as the source does.
- `WeatherService` (weather_service.dfy) holds the day-stepping loop of
  `getDatesInRange`, the filter, and the map.

Behaviour of the code that the model follows:

- updateTrip decides the first four columns by truthiness. It decides
  `companions` and `notes` by presence. So `notes: ""` clears the notes, and
  `companions: null` stores NULL.
- updateTrip does not check that `companions` is a list. createTrip does.
  After such an update, getTrip returns the stored value as it is, and that
  value may not be a list.
- listTrips matches `sortBy` case-sensitively against the allow-list. It
  compares `sortOrder` after upper-casing it. Only `sortOrder` is
  case-insensitive.
- The date check of createTrip is `validateDateRange` from
  `utils/validators`. utils/validators is not part of this model, so the check
  is a parameter (`validDateRange`).
- The Express error handler in `Backend/server.js:28-31` answers every error
  with status 500. That includes the controller's 400 and 404 `ApiError`s. The
  model keeps the reason the controller gives; the status the client finally
  sees is outside the model.
- `auth.middleware.js` reads `const { pool } = require('../config/database')`.
  `Backend/config/database.js:16` exports the pool itself, not an object that
  holds it. The model assumes the handlers reach the intended pool.

## Model

| member | source | states |
|---|---|---|
| `TripModel.ValidateCreate` | Backend/middlewares/auth.middleware.js:11-23 | createTrip refuses with exactly one reason, in source order. A missing or falsy destination, startDate, endDate or purpose gives MissingFields. Otherwise a failed date check gives BadDateRange. Otherwise a truthy companions that is not an array gives CompanionsNotArray. It accepts exactly when none of these applies. |
| `TripModel.CreatedTripColumns` | Backend/middlewares/auth.middleware.js:36-37 | For a body that passed validation, the inserted row stores companions as a list exactly when companions was truthy, and NULL otherwise. Notes are stored when truthy, and NULL otherwise. |
| `TripModel.CompanionsRoundTrip` | Backend/middlewares/auth.middleware.js:36-75 | A companions list given to createTrip comes back from getTrip as the identical ordered list. A trip created without one reads back as the empty list. |
| `TripController.Database.constructor` | Backend/config/database.js:17-74 | A fresh database has four empty tables, AUTO_INCREMENT at 1, and satisfies the table invariant. |
| `TripController.Database.CreateTrip` | Backend/middlewares/auth.middleware.js:6-46 | On refusal, the result is ValidateCreate's reason and nothing changes. On success, exactly one row is added, under the next id, which was free. The other tables are unchanged and the foreign-key invariant is kept. |
| `TripController.Database.GetTrip` | Backend/middlewares/auth.middleware.js:53-77 | The result is 404 exactly when no trip has both that id and the caller's user_id. Otherwise it is that trip's columns, with NULL companions read as the empty list and stored companions returned unchanged. |
| `TripModel.Assign` | Backend/middlewares/auth.middleware.js:141-143 | One `column = ?` sets that column and leaves every other column, the id, the owner and created_at unchanged. |
| `TripModel.ApplySetColumn` | Backend/middlewares/auth.middleware.js:141-143 | Executing a SET list with no repeated column gives each listed column its own parameter and leaves the other columns and the key unchanged. |
| `TripModel.SuppliedAmongFirstMeaning` | Backend/middlewares/auth.middleware.js:104-132 | After the first k column tests, the list holds exactly the supplied columns of rank below k, in increasing rank. |
| `TripController.PushIf` | Backend/middlewares/auth.middleware.js:104-132 | One `if (...) { push; push }` extends the statement from the first k columns to the first k+1, with one parameter per column. |
| `TripModel.FinishStatement` | Backend/middlewares/auth.middleware.js:134-139 | With all six columns considered and tripId appended last, the lists form the update statement. The field list is empty exactly when no field was supplied. |
| `TripController.BuildUpdate` | Backend/middlewares/auth.middleware.js:100-139 | The field list is exactly the columns supplied by the body: truthy destination, startDate, endDate or purpose, and companions or notes when present. They come in that fixed order. There is one parameter per field, companions is NULL when falsy, and tripId comes last. The list is empty exactly when nothing was supplied. |
| `TripModel.UpdateOrderUnique` | Backend/middlewares/auth.middleware.js:104-132 | Two column lists in the fixed order with the same columns are equal, so the update statement of a body is unique. |
| `TripModel.UpdateStatementPatches` | Backend/middlewares/auth.middleware.js:101-143 | Executing the statement built for a body on a row gives the patched row. Each supplied column takes its parameter and every other column keeps its value. |
| `TripController.Database.UpdateTrip` | Backend/middlewares/auth.middleware.js:84-147 | A missing or not-owned trip gives 404 with nothing changed, checked before the body. An empty update gives NoFieldsToUpdate with nothing changed. Otherwise only that trip's row changes, to the patched row, and the other trips and tables are untouched. |
| `TripModel.Unlinked` | Backend/middlewares/auth.middleware.js:175-188 | `DELETE FROM t WHERE trip_id = ?` leaves no row of that trip. Every row of another trip stays with the same key and contents, and no row is added. |
| `TripController.Database.Rollback` | Backend/middlewares/auth.middleware.js:201-203 | Rolling back restores all four tables to the saved contents. |
| `TripController.Database.DeleteTrip` | Backend/middlewares/auth.middleware.js:154-206 | A missing or not-owned trip gives 404 with nothing changed. If any statement or the commit fails, the result is DatabaseFailure and all four tables are as before. On success, the trip is removed and exactly its budgets, locations and expenses are removed. The foreign-key invariant holds. |
| `TripModel.UpperAscii` | Backend/middlewares/auth.middleware.js:224 | The model's ASCII-only upper-casing keeps the length and maps each lower-case ASCII letter to its capital, leaving every other character as it is. This is JavaScript's `toUpperCase` on ASCII text only. |
| `TripModel.ValidateSort` | Backend/middlewares/auth.middleware.js:218-226 | The result is InvalidSortField exactly when sortBy, as written, is not one of start_date, end_date, destination, created_at. Otherwise it is InvalidSortOrder exactly when the upper-cased sortOrder is neither ASC nor DESC. Otherwise the check accepts. |
| `TripModel.AcceptedSortIsPlain` | Backend/middlewares/auth.middleware.js:218-246 | Whatever passes the check and is spliced into ORDER BY is a plain word. sortBy is lower-case letters and `_`. Under the model's ASCII-only upper-casing, sortOrder is three or four ASCII letters. |
| `TripModel.CeilDiv` | Backend/middlewares/auth.middleware.js:237 | `Math.ceil(a / b)` is the least integer q with q*b >= a for positive b, and the matching bound for negative b. |
| `TripModel.Paginate` | Backend/middlewares/auth.middleware.js:228-237 | offset = (page-1)*limit. totalPages is the ceiling of total/limit: (totalPages-1)*limit < total <= totalPages*limit for a positive limit. There is no finite value for a zero limit. |
| `TripModel.PaginationExample` | Backend/middlewares/auth.middleware.js:228-248 | With 25 trips and 10 per page, page 3 has offset 20 and there are 3 pages. That page holds the last 5 trips. |
| `TripModel.OwnedIds` | Backend/middlewares/auth.middleware.js:240-248 | The enumeration of `WHERE user_id = ?` holds exactly the caller's trip ids, strictly increasing. |
| `TripModel.OwnedIdsCount` | Backend/middlewares/auth.middleware.js:232-236 | The enumeration has as many ids as the caller has trips, which is what `COUNT(*)` answers. |
| `TripModel.OwnedPage` | Backend/middlewares/auth.middleware.js:240-248 | Every id on a page of the caller's listing belongs to a trip of the caller, and no id appears twice on a page. |
| `TripModel.Window` | Backend/middlewares/auth.middleware.js:247-248 | `LIMIT limit OFFSET offset` yields min(limit, n-offset) rows, and none past the end. They are the rows from offset onwards, in order. |
| `TripController.Database.ListTrips` | Backend/middlewares/auth.middleware.js:213-259 | Defaults apply for page 1, limit 10, start_date and ASC. A bad sortBy or sortOrder gives 400, and a negative LIMIT or OFFSET gives DatabaseFailure. On success, total is the caller's trip count, totalPages and the page size follow Paginate, and currentPage and itemsPerPage echo the query. Every listed row is a distinct trip of the caller, shown without companions and notes. |
| `WeatherService.TripDays` | Backend/services/weather.service.js:36-47 | The trip days are start, start+1, ..., end. Their count is end-start+1, or 0 when start > end. A day is in the list exactly when it lies in [start, end]. |
| `WeatherService.TripDaysShape` | Backend/services/weather.service.js:41-43 | For start <= end, the first day is start and the last is end. Neighbours differ by one day, so the list is strictly increasing with no duplicates. |
| `WeatherService.DatesInRange` | Backend/services/weather.service.js:36-47 | The day-stepping loop returns exactly TripDays(start, end), and the empty list when start > end. |
| `WeatherService.KeepTripDays` | Backend/services/weather.service.js:19-23 | The filter keeps an entry exactly when its day is in the trip-day list, and never yields more entries than it was given. |
| `WeatherService.KeepTripDaysCounts` | Backend/services/weather.service.js:19-23 | Each entry whose day is a trip day is kept exactly as many times as it occurs in the response, and every other entry is dropped. |
| `WeatherService.KeepTripDaysPreservesOrder` | Backend/services/weather.service.js:20-23 | The kept entries are a subsequence of the response, in input order. |
| `WeatherService.KeptAtMostTripDays` | Backend/services/weather.service.js:19-23 | When the response has one entry per day, at most one entry per trip day is kept. |
| `WeatherService.MapForecasts` | Backend/services/weather.service.js:25-30 | One record per kept entry, in order, holding date, day temperature and the first condition's main and icon. It fails exactly when some kept entry has an empty weather list. |
| `WeatherService.GetWeatherForecast` | Backend/services/weather.service.js:6-34 | A failed call gives the service error. Otherwise the result is the mapping of the entries of the trip days. Each date lies in [start, end], there are no more records than entries, and no more than trip days when days are distinct. It is the empty list, not an error, when no entry overlaps the range. |

## Left out

- SQL text, the mysql2 pool, connection acquisition and release, and logging.
  Tables are maps keyed by row id. The trip row's `created_at` is a parameter
  (`now`) because it is the database clock.
- Database failures outside deleteTrip's transaction. The ownership SELECT,
  the INSERT, the UPDATE and the COUNT can throw in the source; the model lets
  them succeed. The one exception is a negative LIMIT or OFFSET in listTrips,
  which the database refuses.
- `TripController.Database.ListTrips`: the row order of `ORDER BY sortBy
  sortOrder` is not modelled. The listing walks the caller's trips by
  ascending id. How many rows a page holds, and that they are distinct trips
  of the caller, is modelled; which trips fill a given page is not.
  Query strings are taken as already-parsed integers. Non-numeric `page` or
  `limit` (NaN arithmetic) are left out.
- Path ids: the trip id of `/:id` reaches the code as a string
  (Backend/middlewares/auth.middleware.js:55, 86, 156), and line 139 binds
  that string, which MySQL converts when comparing with the integer `id`
  (so "5abc" finds trip 5). The model takes path ids as already-parsed
  natural numbers.
- TripModel.UpperAscii: upper-cases ASCII letters only, while JavaScript's
  `toUpperCase` also maps other characters and can change the length ('ß'
  becomes "SS", 'ſ' becomes "S").
- TripModel.ValidateSort: inherits that ASCII-only upper-casing, so it refuses
  with InvalidSortOrder a sortOrder such as "aſc", which the code at
  Backend/middlewares/auth.middleware.js:224 accepts.
- TripModel.AcceptedSortIsPlain: holds of the model's check, not of the
  code's. The code also accepts "aſc" and splices it unchanged into ORDER BY
  at Backend/middlewares/auth.middleware.js:246, where the database rejects
  it, so the request fails as a query rather than with a 400.
- JSON text: `JSON.stringify` and `JSON.parse` are modelled as storing and
  returning the value itself.
- TripModel.CompanionsRoundTrip: proves the round trip the code intends,
  assuming the `companions` column comes back as JSON text. The column is
  declared `JSON` (Backend/config/database.js:34), and mysql2 decodes JSON
  columns when it reads rows. Read that way, line 74 hands `JSON.parse` an
  array, which it first turns into its comma-joined text: `["Alice","Bob"]`
  becomes `Alice,Bob`, and the empty list `[]` becomes the empty text, and
  the parse throws on both. So getTrip answers 500 for a trip with any stored
  companions array, the empty one included. A list whose comma-joined text is
  itself JSON, such as `[5]`, comes back as that value (`5`) instead. The
  driver's decoding is outside the model, so this
  failure is not captured, and neither GetTrip nor this lemma promises it.
- JavaScript numbers are integers here. NaN, -0 and fractions play no part in
  the truthiness tests. Money and coordinates are integers in the smallest
  DECIMAL unit and are only carried along.
- Column types and constraints the database enforces are not modelled: the
  purpose ENUM, DATE parsing, the foreign key to `users`. They are left to the
  database in the source too.
- The race between the ownership check and the later UPDATE or transaction.
  It involves concurrency between requests, which this model does not cover.
- Weather: the HTTP request and its parameters are a parameter of
  `GetWeatherForecast`, `None` when the call fails. Dates are day numbers.
  `new Date(...)`, `toISOString`, `toLocaleDateString` and the local-time
  behaviour of `setDate` are abstracted: an entry's day is its UTC day
  `dt / 86400`, and the record's `date` is that day. A malformed response other
  than a day without weather conditions is left out.
- The rest of the repository: authentication, budgets, expenses, geocoding,
  the older trip controller and the server wiring.
