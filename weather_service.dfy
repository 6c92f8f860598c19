/**
 * The date-range logic of the weather service: the list of trip days from
 * the start date to the end date, and the forecast entries kept for those
 * days. Calendar days are integers (days since 1970-01-01, UTC); the forecast
 * response is a parameter, `None` when the HTTP call fails.
 */
module WeatherService {
  import opened Results
  import opened Collections

  const SecondsPerDay: int := 86400

  /** The UTC calendar day of a Unix timestamp given in seconds. */
  function DayOf(dt: int): int {
    dt / SecondsPerDay
  }

  /** One element of a day's `weather` array. */
  datatype Condition = Condition(main: string, icon: string)

  /** One entry of the response's `daily` array: timestamp, day temperature, conditions. */
  datatype DailyEntry = DailyEntry(dt: int, tempDay: real, weather: seq<Condition>)

  /** The record handed back for one day: `{date, temp, weather, icon}`. */
  datatype DayForecast = DayForecast(date: int, temp: real, weather: string, icon: string)

  /** The one error of the service: 'Failed to fetch weather data'. */
  datatype WeatherError = FetchFailed

  /** Number of calendar days from first to last, both included. */
  function RangeLength(first: int, last: int): nat {
    if first <= last then last - first + 1 else 0
  }

  /** The days first, first + 1, ..., last. */
  function TripDays(first: int, last: int): (days: seq<int>)
    ensures |days| == RangeLength(first, last)
    ensures forall i :: 0 <= i < |days| ==> days[i] == first + i
    ensures forall d :: d in days <==> first <= d <= last
    decreases last - first
  {
    if first > last then [] else TripDays(first, last - 1) + [last]
  }

  /** The list starts at the first day, ends at the last and goes up one day at a time, so no day appears twice. */
  lemma TripDaysShape(first: int, last: int)
    requires first <= last
    ensures TripDays(first, last)[0] == first
    ensures TripDays(first, last)[|TripDays(first, last)| - 1] == last
    ensures forall i :: 0 <= i < |TripDays(first, last)| - 1 ==>
      TripDays(first, last)[i + 1] == TripDays(first, last)[i] + 1
    ensures forall i, j :: 0 <= i < j < |TripDays(first, last)| ==>
      TripDays(first, last)[i] < TripDays(first, last)[j]
  {
  }

  /** getDatesInRange: steps a current day from the start day to the end day, pushing each. */
  method DatesInRange(startDay: int, endDay: int) returns (dates: seq<int>)
    ensures dates == TripDays(startDay, endDay)
    ensures startDay > endDay ==> dates == []
  {
    dates := [];
    var current := startDay;
    while current <= endDay
      invariant current == startDay || startDay < current <= endDay + 1
      invariant dates == TripDays(startDay, current - 1)
      decreases endDay - current
    {
      dates := dates + [current];
      current := current + 1;
    }
  }

  /** `daily.filter(day => tripDays.includes(dayOf(day.dt)))`. */
  function KeepTripDays(daily: seq<DailyEntry>, tripDays: seq<int>): (kept: seq<DailyEntry>)
    ensures |kept| <= |daily|
    ensures forall e :: e in kept <==> e in daily && DayOf(e.dt) in tripDays
    ensures forall i :: 0 <= i < |kept| ==> DayOf(kept[i].dt) in tripDays
  {
    if daily == [] then []
    else (if DayOf(daily[0].dt) in tripDays then [daily[0]] else []) + KeepTripDays(daily[1..], tripDays)
  }

  /** The filter keeps each entry of a trip day exactly as often as the response holds it, and no other entry. */
  lemma {:induction false} KeepTripDaysCounts(daily: seq<DailyEntry>, tripDays: seq<int>)
    ensures forall x ::
      multiset(KeepTripDays(daily, tripDays))[x] == if DayOf(x.dt) in tripDays then multiset(daily)[x] else 0
  {
    if daily != [] {
      KeepTripDaysCounts(daily[1..], tripDays);
      assert daily == [daily[0]] + daily[1..];
    }
  }

  /** a is s with some elements left out and the others in their original order. */
  predicate IsSubsequence<T(==)>(a: seq<T>, s: seq<T>)
    decreases |s|
  {
    if a == [] then true
    else if s == [] then false
    else (a[0] == s[0] && IsSubsequence(a[1..], s[1..])) || IsSubsequence(a, s[1..])
  }

  /** The filter keeps the retained entries in their input order. */
  lemma {:induction false} KeepTripDaysPreservesOrder(daily: seq<DailyEntry>, tripDays: seq<int>)
    ensures IsSubsequence(KeepTripDays(daily, tripDays), daily)
  {
    if daily != [] {
      KeepTripDaysPreservesOrder(daily[1..], tripDays);
      var rest := KeepTripDays(daily[1..], tripDays);
      if DayOf(daily[0].dt) in tripDays {
        assert KeepTripDays(daily, tripDays) == [daily[0]] + rest;
        assert ([daily[0]] + rest)[1..] == rest;
      } else {
        assert KeepTripDays(daily, tripDays) == rest;
      }
    }
  }

  /** No two entries of the response fall on the same day. */
  predicate DistinctDays(daily: seq<DailyEntry>) {
    forall i, j :: 0 <= i < j < |daily| ==> DayOf(daily[i].dt) != DayOf(daily[j].dt)
  }

  /** The days of a list of entries, in order. */
  function EntryDays(daily: seq<DailyEntry>): (days: seq<int>)
    ensures |days| == |daily|
    ensures forall i :: 0 <= i < |daily| ==> days[i] == DayOf(daily[i].dt)
  {
    seq(|daily|, i requires 0 <= i < |daily| => DayOf(daily[i].dt))
  }

  lemma {:induction false} KeptIsFilteredDistinct(daily: seq<DailyEntry>, tripDays: seq<int>)
    requires DistinctDays(daily)
    ensures DistinctDays(KeepTripDays(daily, tripDays))
  {
    if daily != [] {
      KeptIsFilteredDistinct(daily[1..], tripDays);
      var rest := KeepTripDays(daily[1..], tripDays);
      forall e | e in rest ensures DayOf(e.dt) != DayOf(daily[0].dt) {
        var k :| 0 <= k < |daily[1..]| && daily[1..][k] == e;
        assert daily[k + 1] == e;
      }
      if DayOf(daily[0].dt) in tripDays {
        var kept := [daily[0]] + rest;
        forall i, j | 0 <= i < j < |kept| ensures DayOf(kept[i].dt) != DayOf(kept[j].dt) {
          if i == 0 {
            assert kept[j] == rest[j - 1];
          } else {
            assert kept[i] == rest[i - 1] && kept[j] == rest[j - 1];
          }
        }
      }
    }
  }

  /**
   * When the response has at most one entry per day, the filter keeps at
   * most one entry per trip day.
   */
  lemma KeptAtMostTripDays(daily: seq<DailyEntry>, tripDays: seq<int>)
    requires DistinctDays(daily)
    ensures |KeepTripDays(daily, tripDays)| <= |tripDays|
  {
    var kept := KeepTripDays(daily, tripDays);
    KeptIsFilteredDistinct(daily, tripDays);
    var days := EntryDays(kept);
    DistinctElementsCard(days);
    SubsetCard(Elements(days), Elements(tripDays));
  }

  /** The record for one retained day; it reads `weather[0]`, which must exist. */
  function ToForecast(e: DailyEntry): DayForecast
    requires e.weather != []
  {
    DayForecast(DayOf(e.dt), e.tempDay, e.weather[0].main, e.weather[0].icon)
  }

  /**
   * `dailyForecasts.map(...)`: one record per retained entry, in order. An
   * entry without any weather condition makes the whole call fail.
   */
  function MapForecasts(kept: seq<DailyEntry>): (r: Option<seq<DayForecast>>)
    ensures r.None? <==> exists i :: 0 <= i < |kept| && kept[i].weather == []
    ensures r.Some? ==> |r.value| == |kept|
    ensures r.Some? ==> forall i :: 0 <= i < |kept| ==> kept[i].weather != [] && r.value[i] == ToForecast(kept[i])
  {
    if kept == [] then Some([])
    else if kept[0].weather == [] then None
    else
      match MapForecasts(kept[1..])
      case None =>
        assert exists i :: 0 <= i < |kept[1..]| && kept[1..][i].weather == [];
        var i :| 0 <= i < |kept[1..]| && kept[1..][i].weather == [];
        assert kept[i + 1].weather == [];
        None
      case Some(rest) => Some([ToForecast(kept[0])] + rest)
  }

  /**
   * getWeatherForecast after the HTTP call: the forecast entries of the trip
   * days, mapped to records; a failed call or an unreadable entry is the
   * service's one error.
   */
  method GetWeatherForecast(response: Option<seq<DailyEntry>>, startDay: int, endDay: int)
    returns (r: Result<seq<DayForecast>, WeatherError>)
    ensures response.None? ==> r == Err(FetchFailed)
    ensures response.Some? ==>
      var kept := KeepTripDays(response.value, TripDays(startDay, endDay));
      (r.Err? <==> MapForecasts(kept).None?) &&
      (r.Ok? ==> r.value == MapForecasts(kept).value)
    ensures r.Ok? ==> response.Some? && |r.value| <= |response.value|
    ensures r.Ok? ==> forall i :: 0 <= i < |r.value| ==> startDay <= r.value[i].date <= endDay
    ensures r.Ok? && DistinctDays(response.value) ==> |r.value| <= RangeLength(startDay, endDay)
    ensures response.Some? && (forall e :: e in response.value ==> DayOf(e.dt) < startDay || endDay < DayOf(e.dt)) ==>
      r == Ok([])
  {
    if response.None? {
      return Err(FetchFailed);
    }
    var daily := response.value;
    var tripDays := DatesInRange(startDay, endDay);
    var kept := KeepTripDays(daily, tripDays);
    if DistinctDays(daily) {
      KeptAtMostTripDays(daily, tripDays);
    }
    if kept != [] {
      assert kept[0] in kept;
    }
    match MapForecasts(kept)
    case None => r := Err(FetchFailed);
    case Some(records) => r := Ok(records);
  }
}
