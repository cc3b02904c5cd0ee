/** The driver's route list (src/components/Driver/DriverDashboard.tsx):
    saving the editor's partial route either over the route being edited
    or as a new route, deleting behind a confirmation, and the dashboard
    state around the editor. */
module DriverDashboard {
  import opened Optional
  import opened Types
  import opened Seqs
  import RouteForm

  datatype Tab = RoutesTab | AddRouteTab | BookingsTab | EarningsTab

  /** The dashboard's state: the route list, the active tab, the route
      being edited and the route shown in the detail view. */
  datatype Dashboard = Dashboard(
    routes: seq<Route>,
    activeTab: Tab,
    editing: Option<Route>,
    viewing: Option<Route>)

  /** The owner given to every route the dashboard creates. */
  const CurrentDriver: Id := "current_driver"

  /** The id a new route is given: `route_${Date.now()}`. */
  function NewRouteId(stamp: string): Id {
    "route_" + stamp
  }

  /** `{ id, driverId, ...routeData, createdAt } as Route`: the generated
      id and owner are defaults the data may override, while the creation
      time is always fresh. The cast asserts that the data carries every
      other field of a route. */
  function NewRoute(data: RoutePatch, stamp: string, now: Instant): (r: Route)
    requires data.IsComplete()
    ensures r.id == data.id.GetOr(NewRouteId(stamp))
    ensures r.driverId == data.driverId.GetOr(CurrentDriver)
    ensures r.createdAt == now
    ensures && r.name == data.name.value
            && r.startLocation == data.startLocation.value
            && r.endLocation == data.endLocation.value
            && r.stops == data.stops.value
            && r.schedule == data.schedule.value
            && r.capacity == data.capacity.value
            && r.availableSeats == data.availableSeats.value
            && r.price == data.price.value
            && r.status == data.status.value
  {
    Route(
      data.id.GetOr(NewRouteId(stamp)), data.driverId.GetOr(CurrentDriver),
      data.name.value, data.startLocation.value, data.endLocation.value,
      data.stops.value, data.schedule.value, data.capacity.value,
      data.availableSeats.value, data.price.value, data.status.value, now)
  }

  /** `handleSaveRoute`. While a route is being edited, every route with
      the edited route's id is overlaid with `data` and editing ends;
      otherwise one new route is appended. Either way the route list tab
      becomes active. */
  function SaveRoute(s: Dashboard, data: RoutePatch, stamp: string, now: Instant): (r: Dashboard)
    requires s.editing.Some? || data.IsComplete()
    ensures r.activeTab == RoutesTab && r.editing.None? && r.viewing == s.viewing
    ensures s.editing.Some? ==>
      && |r.routes| == |s.routes|
      && (forall i :: 0 <= i < |s.routes| && s.routes[i].id != s.editing.value.id ==>
            r.routes[i] == s.routes[i])
      && (forall i :: 0 <= i < |s.routes| && s.routes[i].id == s.editing.value.id ==>
            r.routes[i] == data.ApplyTo(s.routes[i]))
    ensures s.editing.None? ==>
      && |r.routes| == |s.routes| + 1
      && r.routes[..|s.routes|] == s.routes
      && r.routes[|s.routes|] == NewRoute(data, stamp, now)
  {
    match s.editing
    case Some(edited) =>
      var routes := Replace(s.routes, (rt: Route) => rt.id == edited.id, (rt: Route) => data.ApplyTo(rt));
      s.(routes := routes, editing := None, activeTab := RoutesTab)
    case None =>
      s.(routes := s.routes + [NewRoute(data, stamp, now)], activeTab := RoutesTab)
  }

  /** `handleDeleteRoute`: when the user confirms, every route carrying
      `routeId` is removed and every other copy keeps its place; when the user
      declines, nothing changes. */
  function DeleteRoute(s: Dashboard, routeId: Id, confirmed: bool): (r: Dashboard)
    ensures !confirmed ==> r == s
    ensures r.(routes := s.routes) == s
    ensures forall rt :: rt in r.routes <==> rt in s.routes && (confirmed ==> rt.id != routeId)
    ensures confirmed ==> forall rt ::
      multiset(r.routes)[rt] == if rt.id != routeId then multiset(s.routes)[rt] else 0
    ensures IsSubsequence(r.routes, s.routes)
    ensures (forall i :: 0 <= i < |s.routes| ==> s.routes[i].id != routeId) ==> r == s
  {
    var keep := (rt: Route) => rt.id != routeId;
    if !confirmed then
      SubsequenceOfSelf(s.routes);
      s
    else
      FilterIsSubsequence(s.routes, keep);
      FilterKeepsAll(s.routes, keep);
      assert forall rt :: multiset(Filter(s.routes, keep))[rt] == if keep(rt) then multiset(s.routes)[rt] else 0 by {
        forall rt ensures multiset(Filter(s.routes, keep))[rt] == if keep(rt) then multiset(s.routes)[rt] else 0 {
          FilterMultiplicity(s.routes, keep, rt);
        }
      }
      s.(routes := Filter(s.routes, keep))
  }

  /** The Edit button: the chosen route becomes the one being edited. The
      button exists only on the route list tab while nothing is being
      edited, so the editor is closed when it is pressed and opens afresh
      on the chosen route. */
  function StartEdit(s: Dashboard, route: Route): (r: Dashboard)
    requires s.activeTab == RoutesTab && s.editing.None?
    ensures OpenForm(r) == Some(RouteForm.InitialForm(Some(route)))
    ensures r.editing == Some(route)
    ensures r.(editing := s.editing) == s
  {
    s.(editing := Some(route))
  }

  /** The editor's Cancel: editing ends and the route list tab is shown;
      the routes are untouched. */
  function CancelEdit(s: Dashboard): (r: Dashboard)
    ensures r.editing.None? && r.activeTab == RoutesTab
    ensures r.routes == s.routes && r.viewing == s.viewing
  {
    s.(editing := None, activeTab := RoutesTab)
  }

  /** The editor the dashboard shows, if any: it is open on the add-route
      tab or while a route is being edited, and starts from the edited
      route when there is one. */
  function OpenForm(s: Dashboard): (f: Option<RouteForm.FormData>)
    ensures f.Some? <==> s.activeTab == AddRouteTab || s.editing.Some?
    ensures f.Some? ==> f.value == RouteForm.InitialForm(s.editing)
    ensures s.editing.None? && f.Some? ==> f.value.stops == [] && f.value.capacity == 4
    ensures s.editing.Some? ==> f.Some? && f.value.stops == s.editing.value.stops
  {
    if s.activeTab == AddRouteTab || s.editing.Some? then
      Some(RouteForm.InitialForm(s.editing))
    else
      None
  }

  /** Saving the editor's form over a route resets that route's free
      seats to the submitted capacity and reactivates it, while its id,
      owner and creation time survive. */
  lemma EditSaveResetsSeats(s: Dashboard, f: RouteForm.FormData, stamp: string, now: Instant)
    requires s.editing.Some?
    ensures var r := SaveRoute(s, RouteForm.Submit(f), stamp, now);
      forall i :: 0 <= i < |s.routes| && s.routes[i].id == s.editing.value.id ==>
        && r.routes[i].availableSeats == f.capacity
        && r.routes[i].capacity == f.capacity
        && r.routes[i].status == Active
        && r.routes[i].id == s.routes[i].id
        && r.routes[i].driverId == s.routes[i].driverId
        && r.routes[i].createdAt == s.routes[i].createdAt
  {
  }

  /** Opening a route in the editor and saving without changes gives that
      route back with every seat free, status active and a zero capacity
      replaced by 4; all other routes are untouched. */
  lemma EditUnchanged(s: Dashboard, route: Route, stamp: string, now: Instant)
    requires s.activeTab == RoutesTab && s.editing.None?
    ensures var s1 := StartEdit(s, route);
      var f := OpenForm(s1).value;
      var r := SaveRoute(s1, RouteForm.Submit(f), stamp, now);
      var cap := if route.capacity == 0 then 4 else route.capacity;
      && |r.routes| == |s.routes|
      && (forall i :: 0 <= i < |s.routes| && s.routes[i] == route ==>
            r.routes[i] == route.(capacity := cap, availableSeats := cap, status := Active))
      && (forall i :: 0 <= i < |s.routes| && s.routes[i].id != route.id ==>
            r.routes[i] == s.routes[i])
  {
  }

  /** A newly added route can be deleted again by its generated id, which
      restores the route list, provided the id was not already in use. */
  lemma {:induction false} AddThenDelete(s: Dashboard, data: RoutePatch, stamp: string, now: Instant)
    requires s.editing.None? && data.IsComplete() && data.id.None?
    requires forall i :: 0 <= i < |s.routes| ==> s.routes[i].id != NewRouteId(stamp)
    ensures DeleteRoute(SaveRoute(s, data, stamp, now), NewRouteId(stamp), true).routes == s.routes
  {
    var added := NewRoute(data, stamp, now);
    var keep := (rt: Route) => rt.id != NewRouteId(stamp);
    FilterAppend(s.routes, [added], keep);
    FilterKeepsAll(s.routes, keep);
    assert Filter([added], keep) == [];
  }
}
