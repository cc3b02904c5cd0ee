# StudentsLine route and booking state, in Dafny

StudentsLine is a browser UI for a student ride-sharing marketplace.
Drivers publish recurring commute routes, and students book seats on them.
Everything runs on in-memory mock data. The only logic in it is a set of
list-editing state transitions in React event handlers. This project models
those transitions as pure functions over immutable records and proves what
each one guarantees:

- **Route editor** (`RouteForm`): the initial form state and the fallbacks it
  takes from an edited route. Also adding, removing and patching stops, the
  weekday toggle, and the projection of the form into the partial route passed
  to `onSave`.
- **Driver dashboard** (`DriverDashboard`): saving either merges into the
  edited route by id or appends a new route. Delete is a filter by id behind a
  confirmation. It also covers the editing state around the form.
- **Student dashboard** (`StudentDashboard`): the two total maps that take a
  booking status to a label and to badge classes, the first-match lookup of a
  booking's route, the booking cards built from it, and the search handler,
  which changes no data.
- **Mock session** (`Auth`, for `useAuth`): `login`, `register` and `logout`
  as transitions over `currentUser` and `isLoading`.

The record shapes (`User`, `Route`, `Stop`, `Location`, `Booking`) are
datatypes in `Types`. A TypeScript `Partial<T>` is a record of `Option`
fields, where `None` means the key is absent. An object spread
`{ ...x, ...patch }` is the patch's `ApplyTo`. `Array.prototype.filter` and the
"change the matching elements" use of `Array.prototype.map` are `Seqs.Filter`
and `Seqs.Replace`.

Parameters stand in for the program's nondeterministic inputs:

- `stamp` is the decimal rendering of `Date.now()`. Ids such as
  `"stop_" + stamp` keep their source prefixes.
- `now` is an opaque `Instant` standing for `new Date()`.
- `confirmed` is the answer to the `confirm()` dialog.

Coordinates and prices are `real` values that are never computed on.
Capacities and seat counts are `int`.

Files: `optional.dfy`, `seqs.dfy`, `types.dfy`, `route_form.dfy`,
`driver_dashboard.dfy`, `student_dashboard.dfy`, `auth.dfy`.

## Model

| member | source | states |
|---|---|---|
| RouteForm.InitialForm | src/components/Driver/RouteForm.tsx:12-22 | Without a route the form is empty, with capacity 4, price 0 and the default start and end points. With a route, every field is copied from it, except that a capacity of 0 falls back to 4 (the `or` fallback of the source). |
| RouteForm.AddStop | src/components/Driver/RouteForm.tsx:28-37 | Exactly one stop is appended at the end. It has id `stop_<stamp>`, an empty name and time, the default location and `order` = previous stop count + 1. Earlier stops and all other form fields are unchanged. |
| RouteForm.RemoveStop | src/components/Driver/RouteForm.tsx:39-44 | The result holds exactly the stops whose id differs, each as many times as in the original and as a subsequence of it, so `order` is not renumbered. An absent id changes nothing, and no other form field changes. |
| RouteForm.UpdateStop | src/components/Driver/RouteForm.tsx:46-53 | The stop count is preserved and stops with another id are unchanged. A matching stop takes each key present in the update and keeps every other field. |
| RouteForm.UpdateStopIdempotent | src/components/Driver/RouteForm.tsx:46-53 | Applying the same update twice equals applying it once, even when the update renames the stop. |
| RouteForm.AddThenRemoveStop | src/components/Driver/RouteForm.tsx:28-44 | Removing a just-added stop by its new id restores the form, provided that id was not already in use. |
| RouteForm.ToggleDay | src/components/Driver/RouteForm.tsx:55-62 | A present day loses every occurrence, and an absent day is appended at the end. Other days keep their membership and their relative order, and no other form field changes. |
| RouteForm.ToggleDayNoDuplicates | src/components/Driver/RouteForm.tsx:55-62 | A day list without duplicates stays without duplicates. |
| RouteForm.ToggleDayTwice | src/components/Driver/RouteForm.tsx:55-62 | Toggling twice restores membership of every day. It restores the exact list when the day was absent. When the day was present, it returns at the end. |
| RouteForm.Submit | src/components/Driver/RouteForm.tsx:64-84 | The partial route is complete for a new route. Its `availableSeats` equals `capacity` and its status is active. Its schedule is built from the departure time, arrival time and days, and it carries no id, owner or creation time. |
| RouteForm.SubmitThenReopen | src/components/Driver/RouteForm.tsx:12-84 | Reopening the editor on a route saved from a form gives back that form, except that a capacity of 0 reopens as 4. |
| Types.StopPatchIdempotent | src/components/Driver/RouteForm.tsx:50 | Spreading the same stop patch twice equals spreading it once. |
| Types.RoutePatchIdempotent | src/components/Driver/DriverDashboard.tsx:55 | Spreading the same route patch twice equals spreading it once. |
| DriverDashboard.NewRoute | src/components/Driver/DriverDashboard.tsx:61-66 | The new route takes every field from the data. Its id (`route_<stamp>`) and owner (`current_driver`) are used only when the data lacks those keys, and `createdAt` is always the fresh time. |
| DriverDashboard.SaveRoute | src/components/Driver/DriverDashboard.tsx:50-70 | While editing, the list length is unchanged. Routes with another id are unchanged, and routes with the edited id become the old route overlaid with the data. Otherwise exactly one new route is appended after the unchanged prior routes. After either save the routes tab is active, nothing is being edited and the detail view is untouched. |
| DriverDashboard.DeleteRoute | src/components/Driver/DriverDashboard.tsx:72-76 | When declined, nothing changes. When confirmed, exactly the routes with another id remain, each as many times as before and as a subsequence of the list. An absent id changes nothing, and no other dashboard state changes. |
| DriverDashboard.StartEdit | src/components/Driver/DriverDashboard.tsx:192-257 | Pressed on the route list tab while nothing is edited (the only state where the button exists), it makes the chosen route the one being edited and changes nothing else. The editor, closed before, then opens with exactly the initial form of that route. |
| DriverDashboard.CancelEdit | src/components/Driver/DriverDashboard.tsx:287-290 | Editing ends and the routes tab becomes active. The routes and the detail view are untouched. |
| DriverDashboard.OpenForm | src/components/Driver/DriverDashboard.tsx:283-291 | The editor is shown exactly on the add-route tab or while editing. It is exactly the initial form of the edited route when there is one, and otherwise the empty form. |
| DriverDashboard.EditSaveResetsSeats | src/components/Driver/DriverDashboard.tsx:53-57 | Saving a submitted form over a route sets its `availableSeats` and `capacity` to the submitted capacity and its status to active. The route keeps its id, owner and creation time. |
| DriverDashboard.EditUnchanged | src/components/Driver/DriverDashboard.tsx:50-58 | From the route list with nothing edited, editing a route and saving without changes returns that route with every seat free, status active and a capacity of 0 replaced by 4. Routes with another id are untouched. |
| DriverDashboard.AddThenDelete | src/components/Driver/DriverDashboard.tsx:59-75 | A confirmed delete of a newly added route's generated id restores the route list, provided that id was not already in use. |
| StudentDashboard.HandleSearch | src/components/Student/StudentDashboard.tsx:102-105 | The search leaves the routes, the bookings and the tab as they were. |
| StudentDashboard.StatusColor | src/components/Student/StudentDashboard.tsx:107-120 | Every string gets one of five class strings. A string that is not a status name gets the gray default, and a status name never gets it. Which of the four colours each status gets is fixed only by the function body. |
| StudentDashboard.StatusColorsDistinct | src/components/Student/StudentDashboard.tsx:107-120 | The four statuses get four distinct class strings, none of them the gray default. |
| StudentDashboard.StatusText | src/components/Student/StudentDashboard.tsx:122-135 | A status name gets one of the four labels, and any other string is returned unchanged. Which label each status gets is fixed only by the function body. |
| StudentDashboard.StatusTextsDistinct | src/components/Student/StudentDashboard.tsx:122-135 | The four statuses get four distinct labels, and no label is itself a status name. |
| StudentDashboard.FindRoute | src/components/Student/StudentDashboard.tsx:193-194 | The lookup yields nothing exactly when no route has the id. Otherwise it yields a route with that id that no earlier route's id matches. |
| StudentDashboard.FindRouteIsFirstMatch | src/components/Student/StudentDashboard.tsx:193 | The lookup equals the first element of the list filtered by id, or nothing when that list is empty. |
| StudentDashboard.BookingCards | src/components/Student/StudentDashboard.tsx:192-196 | There are no more cards than bookings, and each card's route is the one the lookup gives for its booking. |
| StudentDashboard.BookingCardsShowBookingsWithRoutes | src/components/Student/StudentDashboard.tsx:190-196 | The cards show exactly the bookings that have a route, in booking order. |
| Auth.Begin | src/hooks/useAuth.ts:9 | Starting a login or a registration raises `isLoading` and keeps the current user. |
| Auth.FinishLogin | src/hooks/useAuth.ts:13-25 | The user that is stored is the one returned. It has the given phone and type, rating 4.5, a name chosen by type, id `<type>_<stamp>` and email `<type>@example.com`, and loading ends. |
| Auth.FinishRegister | src/hooks/useAuth.ts:32-44 | Name, phone and email default to empty, the type defaults to student and the rating is always 0. A missing type gives an id starting `undefined_`. The stored user is the one returned, and loading ends. |
| Auth.Login | src/hooks/useAuth.ts:8-26 | While waiting, `isLoading` is true and the user is unchanged. On completion `isLoading` is false and the returned user is signed in with the given phone and type. |
| Auth.Register | src/hooks/useAuth.ts:28-45 | While waiting, `isLoading` is true. On completion `isLoading` is false and the returned user, with rating 0, is signed in. |
| Auth.Logout | src/hooks/useAuth.ts:47-49 | Nobody is signed in afterwards, and `isLoading` is left as it was. |
| Auth.LogoutDuringLoginIsOverridden | src/hooks/useAuth.ts:8-26 | A logout issued while a login waits is undone when the login completes. |
| Auth.LoginIgnoresPassword | src/hooks/useAuth.ts:8-26 | Two logins that differ only in the password have the same outcome. |
| Auth.LastCallDecidesSignIn | src/hooks/useAuth.ts:13-49 | After any non-empty sequence of completed calls, somebody is signed in exactly when the last call was not a logout. |
| Auth.CompletedCallsSettle | src/hooks/useAuth.ts:9-43 | Completed calls never leave the hook loading, unless it was already loading and only logouts followed. |

## Left out

- Rendering is left out: JSX, styling, `HomePage`, `Header`, `AuthModal` and `App`. Besides forwarding to the modelled handlers, these parts only set view-selection state. That state is `activeTab` (the tab buttons of both dashboards), `viewingRoute` (opening and closing the driver's detail view), `showAuthModal` in `App`, `isLoginMode`, `userType` and the input fields in `AuthModal`, and the hover highlight in `HomePage`. No tab switch and no detail-view transition is modelled. `Dashboard.viewing` is carried only to show that the modelled handlers leave it alone.
- The route map (`RouteMap.tsx`) wraps a third-party map widget, and its centre is a floating-point average.
- The search form (`RouteSearch.tsx`) only forwards its criteria. No filtering exists anywhere.
- `formatTime` is left out because it depends on JavaScript `Date` parsing and locale formatting.
- The field `onChange` handlers are left out. They call `parseInt` and `parseFloat`, which can yield `NaN`.
- The mock fixture data (`mockDriverRoutes`, `mockRoutes`, `mockBookings`) is left out. Dashboards take any route and booking lists.
- The `Driver`, `Student` and `Review` interfaces are used by none of the modelled operations.
- The one-second `setTimeout` delay and `async`/`await` are not modelled. `login` and `register` are split into their halves before and after the wait (`Auth.Begin`, `Auth.FinishLogin`, `Auth.FinishRegister`). No other concurrency is modelled.
- React's batching of state updates is not modelled. Each handler is one atomic step on the current state. `addStop` numbers the new stop from the rendered `formData` rather than from the updater's `prev`; in a single step the two are the same.
- `Partial<T>` keys holding an explicit `undefined` are not modelled. An absent key is `None`, and the form never produces an explicit `undefined`.
- DriverDashboard.SaveRoute: on the append branch it requires a patch that carries every route field other than id, owner and creation time. The source's `as Route` cast would otherwise store a record with `undefined` fields. Every patch the route form submits meets this requirement (`RouteForm.Submit` ensures `IsComplete()`).
- DriverDashboard.NewRoute: it has the same completeness requirement as `SaveRoute`'s append branch, for the same reason.
- Auth.FinishRegister: a `userData.name`, `phone` or `email` of `""` is treated like an absent key. JavaScript's `x || ''` gives `''` in both cases, so the result is the same.
