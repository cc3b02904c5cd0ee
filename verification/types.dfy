/** The record shapes of src/types/index.ts, and their `Partial<...>`
    counterparts together with the object-spread overlay `{ ...x, ...patch }`
    the components use to apply them.

    Ids, clock times and day names are strings, as in the TypeScript record types.
    Coordinates and prices are carried as `real` and never computed on.
    A `Date` is an opaque `Instant`. */
module Types {
  import opened Optional

  type Id = string

  /** A JavaScript `Date`, kept opaque: nothing in the core inspects it. */
  datatype Instant = Instant(millis: int)

  datatype Location = Location(lat: real, lng: real, address: string)

  /** An intermediate stop. Nothing enforces that `order` values are
      contiguous or unique. */
  datatype Stop = Stop(id: Id, name: string, location: Location, time: string, order: int)

  datatype Schedule = Schedule(departure: string, arrival: string, days: seq<string>)

  datatype RouteStatus = Active | Inactive

  /** A route. Nothing enforces `availableSeats <= capacity`. */
  datatype Route = Route(
    id: Id,
    driverId: Id,
    name: string,
    startLocation: Location,
    endLocation: Location,
    stops: seq<Stop>,
    schedule: Schedule,
    capacity: int,
    availableSeats: int,
    price: real,
    status: RouteStatus,
    createdAt: Instant)

  /** The `type` tag of a user: `'driver' | 'student'`. */
  datatype UserType = Driver | Student {
    /** The tag's string form, as it appears in generated ids and emails. */
    function Name(): string {
      match this
      case Driver => "driver"
      case Student => "student"
    }
  }

  datatype User = User(
    id: Id,
    name: string,
    phone: string,
    email: string,
    userType: UserType,
    rating: real,
    avatar: Option<string>,
    createdAt: Instant)

  datatype BookingStatus = Pending | Confirmed | Cancelled | Completed {
    /** The status's string form, the value a `Booking` carries at run time. */
    function Name(): string {
      match this
      case Pending => "pending"
      case Confirmed => "confirmed"
      case Cancelled => "cancelled"
      case Completed => "completed"
    }
  }

  datatype Booking = Booking(
    id: Id,
    studentId: Id,
    routeId: Id,
    status: BookingStatus,
    pickupStop: Stop,
    dropoffStop: Stop,
    bookingDate: Instant,
    travelDate: Instant,
    price: real)

  /** `Partial<Stop>`: `None` is a key the object does not have. */
  datatype StopPatch = StopPatch(
    id: Option<Id>,
    name: Option<string>,
    location: Option<Location>,
    time: Option<string>,
    order: Option<int>)
  {
    /** `{ ...st, ...this }`: every key the patch has wins, every other
        field keeps the stop's value. */
    function ApplyTo(st: Stop): (r: Stop)
      ensures r.id == id.GetOr(st.id) && r.order == order.GetOr(st.order)
      ensures id.None? && name.None? && location.None? && time.None? && order.None? ==> r == st
    {
      Stop(id.GetOr(st.id), name.GetOr(st.name), location.GetOr(st.location),
           time.GetOr(st.time), order.GetOr(st.order))
    }
  }

  /** `Partial<Route>`: `None` is a key the object does not have. */
  datatype RoutePatch = RoutePatch(
    id: Option<Id>,
    driverId: Option<Id>,
    name: Option<string>,
    startLocation: Option<Location>,
    endLocation: Option<Location>,
    stops: Option<seq<Stop>>,
    schedule: Option<Schedule>,
    capacity: Option<int>,
    availableSeats: Option<int>,
    price: Option<real>,
    status: Option<RouteStatus>,
    createdAt: Option<Instant>)
  {
    /** Every key a `Route` needs besides the ones a new route gets from
        the dashboard (`id`, `driverId`, `createdAt`). */
    predicate IsComplete() {
      && name.Some? && startLocation.Some? && endLocation.Some? && stops.Some?
      && schedule.Some? && capacity.Some? && availableSeats.Some? && price.Some?
      && status.Some?
    }

    /** `{ ...route, ...this }`: every key the patch has wins, every other
        field keeps the route's value. */
    function ApplyTo(route: Route): (r: Route)
      ensures r.id == id.GetOr(route.id)
      ensures r.availableSeats == availableSeats.GetOr(route.availableSeats)
      ensures r.createdAt == createdAt.GetOr(route.createdAt)
    {
      Route(id.GetOr(route.id), driverId.GetOr(route.driverId), name.GetOr(route.name),
            startLocation.GetOr(route.startLocation), endLocation.GetOr(route.endLocation),
            stops.GetOr(route.stops), schedule.GetOr(route.schedule),
            capacity.GetOr(route.capacity), availableSeats.GetOr(route.availableSeats),
            price.GetOr(route.price), status.GetOr(route.status),
            createdAt.GetOr(route.createdAt))
    }
  }

  /** `Partial<User>`: `None` is a key the object does not have. */
  datatype UserPatch = UserPatch(
    id: Option<Id>,
    name: Option<string>,
    phone: Option<string>,
    email: Option<string>,
    userType: Option<UserType>,
    rating: Option<real>,
    avatar: Option<string>,
    createdAt: Option<Instant>)

  /** Applying the same stop patch twice is applying it once. */
  lemma StopPatchIdempotent(p: StopPatch, st: Stop)
    ensures p.ApplyTo(p.ApplyTo(st)) == p.ApplyTo(st)
  {
  }

  /** Overlaying the same route patch twice is overlaying it once. */
  lemma RoutePatchIdempotent(p: RoutePatch, route: Route)
    ensures p.ApplyTo(p.ApplyTo(route)) == p.ApplyTo(route)
  {
  }
}
