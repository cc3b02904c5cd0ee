/** The student's dashboard (src/components/Student/StudentDashboard.tsx):
    how a booking's status is labelled and coloured, how each booking
    finds its route, and the (data-neutral) search handler. */
module StudentDashboard {
  import opened Optional
  import opened Types
  import opened Seqs

  datatype Tab = SearchTab | BookingsTab | HistoryTab

  /** The dashboard's state: the route list, the bookings and the tab. */
  datatype StudentView = StudentView(routes: seq<Route>, bookings: seq<Booking>, activeTab: Tab)

  /** The criteria the search form hands over: four raw input strings. */
  datatype SearchCriteria = SearchCriteria(from: string, to: string, time: string, maxPrice: string)

  /** `handleSearch` only logs its criteria: routes, bookings and the tab
      are all left as they were. */
  function HandleSearch(s: StudentView, criteria: SearchCriteria): (r: StudentView)
    ensures r.routes == s.routes && r.bookings == s.bookings && r.activeTab == s.activeTab
  {
    s
  }

  const ConfirmedClass := "text-green-600 bg-green-100"
  const PendingClass := "text-yellow-600 bg-yellow-100"
  const CancelledClass := "text-red-600 bg-red-100"
  const CompletedClass := "text-blue-600 bg-blue-100"
  /** The class of every string that is not a booking status. */
  const DefaultClass := "text-gray-600 bg-gray-100"

  /** The string is one of the four status names. */
  predicate IsStatusName(status: string) {
    status == Pending.Name() || status == Confirmed.Name()
    || status == Cancelled.Name() || status == Completed.Name()
  }

  /** `getStatusColor`: the badge classes for a status string. Any string
      gets a class; those that are not a status name get the gray one. */
  function StatusColor(status: string): (c: string)
    ensures c in {ConfirmedClass, PendingClass, CancelledClass, CompletedClass, DefaultClass}
    ensures !IsStatusName(status) ==> c == DefaultClass
    ensures IsStatusName(status) ==> c != DefaultClass
  {
    if status == "confirmed" then ConfirmedClass
    else if status == "pending" then PendingClass
    else if status == "cancelled" then CancelledClass
    else if status == "completed" then CompletedClass
    else DefaultClass
  }

  const ConfirmedText := "مؤكد"
  const PendingText := "قيد المراجعة"
  const CancelledText := "ملغي"
  const CompletedText := "مكتمل"

  /** `getStatusText`: the label shown for a status string. A string that
      is not a status name is shown as it is. */
  function StatusText(status: string): (t: string)
    ensures !IsStatusName(status) ==> t == status
    ensures IsStatusName(status) ==> t in {ConfirmedText, PendingText, CancelledText, CompletedText}
  {
    if status == "confirmed" then ConfirmedText
    else if status == "pending" then PendingText
    else if status == "cancelled" then CancelledText
    else if status == "completed" then CompletedText
    else status
  }

  /** Different booking statuses always get different badge classes, and
      none of them gets the gray default. */
  lemma StatusColorsDistinct(a: BookingStatus, b: BookingStatus)
    ensures a != b ==> StatusColor(a.Name()) != StatusColor(b.Name())
    ensures StatusColor(a.Name()) != DefaultClass
  {
  }

  /** Different booking statuses always get different labels, and no label
      is itself a raw status name. */
  lemma StatusTextsDistinct(a: BookingStatus, b: BookingStatus)
    ensures a != b ==> StatusText(a.Name()) != StatusText(b.Name())
    ensures !IsStatusName(StatusText(a.Name()))
  {
  }

  /** `routes.find(r => r.id === booking.routeId)`: the first route with
      the id, or nothing when no route has it. */
  function FindRoute(routes: seq<Route>, routeId: Id): (r: Option<Route>)
    ensures r.None? <==> forall i :: 0 <= i < |routes| ==> routes[i].id != routeId
    ensures r.Some? ==>
      exists i :: 0 <= i < |routes| && routes[i] == r.value && r.value.id == routeId
        && forall j :: 0 <= j < i ==> routes[j].id != routeId
    decreases |routes|
  {
    if |routes| == 0 then None
    else if routes[0].id == routeId then Some(routes[0])
    else
      var r := FindRoute(routes[1..], routeId);
      if r.Some? then
        ghost var k :| 0 <= k < |routes[1..]| && routes[1..][k] == r.value
          && r.value.id == routeId && forall j :: 0 <= j < k ==> routes[1..][j].id != routeId;
        assert routes[k + 1] == r.value;
        r
      else
        r
  }

  /** The lookup agrees with filtering: it yields the first of the routes
      that carry the id. */
  lemma {:induction false} FindRouteIsFirstMatch(routes: seq<Route>, routeId: Id)
    ensures var matching := Filter(routes, (rt: Route) => rt.id == routeId);
      FindRoute(routes, routeId) == if matching == [] then None else Some(matching[0])
    decreases |routes|
  {
    if |routes| > 0 {
      FindRouteIsFirstMatch(routes[1..], routeId);
    }
  }

  /** A booking card: a booking shown together with its route. */
  datatype Card = Card(booking: Booking, route: Route)

  /** The booking has a route to be shown with. */
  predicate HasRoute(routes: seq<Route>, b: Booking) {
    FindRoute(routes, b.routeId).Some?
  }

  /** The bookings the cards show, in order. */
  function CardBookings(cards: seq<Card>): (bs: seq<Booking>)
    ensures |bs| == |cards|
    ensures forall i :: 0 <= i < |cards| ==> bs[i] == cards[i].booking
  {
    seq(|cards|, i requires 0 <= i < |cards| => cards[i].booking)
  }

  /** The bookings of a card list with one more card in front. */
  lemma CardBookingsCons(c: Card, rest: seq<Card>)
    ensures CardBookings([c] + rest) == [c.booking] + CardBookings(rest)
  {
  }

  /** The "current bookings" list: each booking paired with the route
      `find` gives it; a booking whose route is missing renders nothing. */
  function BookingCards(bookings: seq<Booking>, routes: seq<Route>): (cards: seq<Card>)
    ensures |cards| <= |bookings|
    ensures forall i :: 0 <= i < |cards| ==>
      FindRoute(routes, cards[i].booking.routeId) == Some(cards[i].route)
    decreases |bookings|
  {
    if |bookings| == 0 then []
    else
      var rest := BookingCards(bookings[1..], routes);
      if HasRoute(routes, bookings[0]) then
        [Card(bookings[0], FindRoute(routes, bookings[0].routeId).value)] + rest
      else
        rest
  }

  /** The cards show exactly the bookings that have a route, in the order
      of the booking list. */
  lemma {:induction false} BookingCardsShowBookingsWithRoutes(bookings: seq<Booking>, routes: seq<Route>)
    ensures CardBookings(BookingCards(bookings, routes))
      == Filter(bookings, (b: Booking) => HasRoute(routes, b))
    decreases |bookings|
  {
    if |bookings| > 0 {
      var keep := (b: Booking) => HasRoute(routes, b);
      var rest := BookingCards(bookings[1..], routes);
      BookingCardsShowBookingsWithRoutes(bookings[1..], routes);
      FilterCons(bookings, keep);
      if keep(bookings[0]) {
        CardBookingsCons(Card(bookings[0], FindRoute(routes, bookings[0].routeId).value), rest);
      }
    }
  }
}
