/** The state transitions of the driver's route editor
    (src/components/Driver/RouteForm.tsx): the initial form state, the
    stop-list and weekday edits, and the projection of the form into the
    partial route handed to `onSave`. Each `setFormData(prev => ...)`
    updater is a pure function from the previous form to the next one. */
module RouteForm {
  import opened Optional
  import opened Types
  import opened Seqs

  /** The editor's `formData` object. */
  datatype FormData = FormData(
    name: string,
    startLocation: Location,
    endLocation: Location,
    stops: seq<Stop>,
    departureTime: string,
    arrivalTime: string,
    days: seq<string>,
    capacity: int,
    price: real)

  /** Default start point of a new route, also the location of a new stop. */
  const DefaultStart := Location(24.7136, 46.6753, "")
  /** Default end point of a new route. */
  const DefaultEnd := Location(24.7219, 46.6147, "")
  /** Seat capacity offered when the route supplies none (or zero). */
  const DefaultCapacity := 4

  /** JavaScript `s || fallback` on strings: the empty string is falsy. */
  function StringOr(s: string, fallback: string): string {
    if s == "" then fallback else s
  }

  /** JavaScript `n || fallback` on numbers: zero is falsy. */
  function IntOr(n: int, fallback: int): int {
    if n == 0 then fallback else n
  }

  /** JavaScript `x || fallback` on numbers: zero is falsy. */
  function RealOr(x: real, fallback: real): real {
    if x == 0.0 then fallback else x
  }

  /** The form's initial state, from the route being edited (if any).
      Locations, stops and days are objects or arrays, always truthy, so
      `||` copies them whenever there is a route. */
  function InitialForm(route: Option<Route>): (f: FormData)
    ensures route.None? ==>
      && f.name == "" && f.departureTime == "" && f.arrivalTime == ""
      && f.stops == [] && f.days == []
      && f.capacity == 4 && f.price == 0.0
      && f.startLocation == DefaultStart && f.endLocation == DefaultEnd
    ensures route.Some? ==>
      && f.name == route.value.name
      && f.startLocation == route.value.startLocation
      && f.endLocation == route.value.endLocation
      && f.stops == route.value.stops
      && f.departureTime == route.value.schedule.departure
      && f.arrivalTime == route.value.schedule.arrival
      && f.days == route.value.schedule.days
      && f.price == route.value.price
    ensures route.Some? && route.value.capacity != 0 ==> f.capacity == route.value.capacity
    ensures route.Some? && route.value.capacity == 0 ==> f.capacity == 4
  {
    match route
    case None =>
      FormData("", DefaultStart, DefaultEnd, [], "", "", [], DefaultCapacity, 0.0)
    case Some(r) =>
      FormData(StringOr(r.name, ""), r.startLocation, r.endLocation, r.stops,
               StringOr(r.schedule.departure, ""), StringOr(r.schedule.arrival, ""),
               r.schedule.days, IntOr(r.capacity, DefaultCapacity), RealOr(r.price, 0.0))
  }

  /** The id `addStop` gives a new stop: `stop_${Date.now()}`. */
  function NewStopId(stamp: string): Id {
    "stop_" + stamp
  }

  /** `addStop`: one blank stop appended after the existing ones, numbered
      one past the current stop count. `stamp` is the decimal rendering of
      `Date.now()`. */
  function AddStop(f: FormData, stamp: string): (r: FormData)
    ensures |r.stops| == |f.stops| + 1
    ensures r.stops[..|f.stops|] == f.stops
    ensures var added := r.stops[|f.stops|];
      && added.id == NewStopId(stamp)
      && added.name == "" && added.time == ""
      && added.location == DefaultStart
      && added.order == |f.stops| + 1
    ensures r.(stops := f.stops) == f
  {
    var added := Stop(NewStopId(stamp), "", DefaultStart, "", |f.stops| + 1);
    f.(stops := f.stops + [added])
  }

  /** `removeStop`: drops every stop carrying `stopId`. The survivors keep
      their order, their multiplicity and their `order` numbers, so gaps
      may appear. */
  function RemoveStop(f: FormData, stopId: Id): (r: FormData)
    ensures r.(stops := f.stops) == f
    ensures forall st :: st in r.stops <==> st in f.stops && st.id != stopId
    ensures forall st :: multiset(r.stops)[st] == if st.id != stopId then multiset(f.stops)[st] else 0
    ensures IsSubsequence(r.stops, f.stops)
    ensures (forall i :: 0 <= i < |f.stops| ==> f.stops[i].id != stopId) ==> r == f
  {
    var keep := (st: Stop) => st.id != stopId;
    FilterIsSubsequence(f.stops, keep);
    FilterKeepsAll(f.stops, keep);
    assert forall st :: multiset(Filter(f.stops, keep))[st] == if keep(st) then multiset(f.stops)[st] else 0 by {
      forall st ensures multiset(Filter(f.stops, keep))[st] == if keep(st) then multiset(f.stops)[st] else 0 {
        FilterMultiplicity(f.stops, keep, st);
      }
    }
    f.(stops := Filter(f.stops, keep))
  }

  /** `updateStop`: every stop carrying `stopId` takes the keys present in
      `updates` and keeps its other fields; every other stop is untouched. */
  function UpdateStop(f: FormData, stopId: Id, updates: StopPatch): (r: FormData)
    ensures |r.stops| == |f.stops|
    ensures forall i :: 0 <= i < |f.stops| && f.stops[i].id != stopId ==> r.stops[i] == f.stops[i]
    ensures forall i :: 0 <= i < |f.stops| && f.stops[i].id == stopId ==>
      && r.stops[i].id == updates.id.GetOr(stopId)
      && r.stops[i].name == updates.name.GetOr(f.stops[i].name)
      && r.stops[i].location == updates.location.GetOr(f.stops[i].location)
      && r.stops[i].time == updates.time.GetOr(f.stops[i].time)
      && r.stops[i].order == updates.order.GetOr(f.stops[i].order)
    ensures r.(stops := f.stops) == f
  {
    f.(stops := Replace(f.stops, (st: Stop) => st.id == stopId, (st: Stop) => updates.ApplyTo(st)))
  }

  /** Applying the same stop update twice is applying it once, even when
      the update renames the stop. */
  lemma UpdateStopIdempotent(f: FormData, stopId: Id, updates: StopPatch)
    ensures UpdateStop(UpdateStop(f, stopId, updates), stopId, updates) == UpdateStop(f, stopId, updates)
  {
    var once := UpdateStop(f, stopId, updates);
    var twice := UpdateStop(once, stopId, updates);
    assert |twice.stops| == |once.stops|;
    forall i | 0 <= i < |f.stops|
      ensures twice.stops[i] == once.stops[i]
    {
      if f.stops[i].id == stopId {
        StopPatchIdempotent(updates, f.stops[i]);
      }
    }
  }

  /** `days` without any occurrence of `day`. */
  function WithoutDay(days: seq<string>, day: string): seq<string> {
    Filter(days, (d: string) => d != day)
  }

  /** `toggleDay`: a selected day is removed (every occurrence), an
      unselected one is appended at the end. */
  function ToggleDay(f: FormData, day: string): (r: FormData)
    ensures r.(days := f.days) == f
    ensures day in f.days ==> day !in r.days
    ensures day !in f.days ==> r.days == f.days + [day]
    ensures forall d :: d != day ==> (d in r.days <==> d in f.days)
    ensures WithoutDay(r.days, day) == WithoutDay(f.days, day)
  {
    if day in f.days then
      var w := WithoutDay(f.days, day);
      FilterTwice(f.days, (d: string) => d != day, (d: string) => d != day);
      f.(days := w)
    else
      FilterAppend(f.days, [day], (d: string) => d != day);
      FilterKeepsAll(f.days, (d: string) => d != day);
      f.(days := f.days + [day])
  }

  /** Toggling never introduces a duplicate day. */
  lemma ToggleDayNoDuplicates(f: FormData, day: string)
    requires NoDuplicates(f.days)
    ensures NoDuplicates(ToggleDay(f, day).days)
  {
    if day in f.days {
      FilterNoDuplicates(f.days, (d: string) => d != day);
    } else {
      var r := f.days + [day];
      forall i, j | 0 <= i < j < |r|
        ensures r[i] != r[j]
      {
        if j == |f.days| {
          assert r[i] == f.days[i];
        }
      }
    }
  }

  /** Toggling a day twice restores which days are selected. It restores
      the exact list when the day was unselected; a selected day comes
      back at the end, after the others. */
  lemma ToggleDayTwice(f: FormData, day: string)
    ensures forall d :: d in ToggleDay(ToggleDay(f, day), day).days <==> d in f.days
    ensures day !in f.days ==> ToggleDay(ToggleDay(f, day), day) == f
    ensures day in f.days ==> ToggleDay(ToggleDay(f, day), day).days == WithoutDay(f.days, day) + [day]
  {
    var once := ToggleDay(f, day);
    if day !in f.days {
      assert day in once.days;
      FilterKeepsAll(f.days, (d: string) => d != day);
      assert WithoutDay(once.days, day) == WithoutDay(f.days, day);
    }
  }

  /** `handleSubmit`: the partial route passed to `onSave`. It always
      offers every seat and publishes the route as active. */
  function Submit(f: FormData): (p: RoutePatch)
    ensures p.IsComplete()
    ensures p.availableSeats == Some(f.capacity) && p.capacity == Some(f.capacity)
    ensures p.status == Some(Active)
    ensures p.schedule == Some(Schedule(f.departureTime, f.arrivalTime, f.days))
    ensures p.name == Some(f.name) && p.stops == Some(f.stops) && p.price == Some(f.price)
    ensures p.startLocation == Some(f.startLocation) && p.endLocation == Some(f.endLocation)
    ensures p.id.None? && p.driverId.None? && p.createdAt.None?
  {
    RoutePatch(
      id := None,
      driverId := None,
      name := Some(f.name),
      startLocation := Some(f.startLocation),
      endLocation := Some(f.endLocation),
      stops := Some(f.stops),
      schedule := Some(Schedule(f.departureTime, f.arrivalTime, f.days)),
      capacity := Some(f.capacity),
      availableSeats := Some(f.capacity),
      price := Some(f.price),
      status := Some(Active),
      createdAt := None)
  }

  /** Reopening the editor on a route saved from a form gives back that
      form, unless the capacity was zero (which reopens as 4). */
  lemma SubmitThenReopen(f: FormData, route: Route)
    ensures f.capacity != 0 ==> InitialForm(Some(Submit(f).ApplyTo(route))) == f
    ensures f.capacity == 0 ==> InitialForm(Some(Submit(f).ApplyTo(route))) == f.(capacity := 4)
  {
  }

  /** Adding a stop and then removing it by its new id restores the form,
      provided no existing stop already had that id. */
  lemma {:induction false} AddThenRemoveStop(f: FormData, stamp: string)
    requires forall i :: 0 <= i < |f.stops| ==> f.stops[i].id != NewStopId(stamp)
    ensures RemoveStop(AddStop(f, stamp), NewStopId(stamp)) == f
  {
    var added := AddStop(f, stamp).stops[|f.stops|];
    var keep := (st: Stop) => st.id != NewStopId(stamp);
    FilterAppend(f.stops, [added], keep);
    FilterKeepsAll(f.stops, keep);
    assert Filter([added], keep) == [];
  }
}
