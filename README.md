# University Resource Manager — booking core in Dafny

This project models the decision logic of a campus resource-booking web
application: labs, halls and equipment that requesters reserve for a time
slot, and an administrator approves or rejects.

- **Booking API** (`bookings.dfy`, module `Bookings`). `POST /api/bookings` is
  the admission rule. It first looks for a stored booking on the same resource
  whose status is `Pending` or `Approved` and whose interval overlaps the
  requested `[start, end)` (`startTime < end && endTime > start`). If it finds
  one, it answers 409 with "This resource is already booked for the selected
  time slot." and writes nothing. Otherwise it inserts one `Pending` booking.
  The booking table is a `seq<Booking>` field of the class `BookingStore`,
  which `Post` reassigns. The store invariant `NoDoubleBooking` says that the
  active bookings of one resource never pairwise overlap. `Post` preserves it.
  `GET /api/bookings` is a pure function: it filters by `resourceId` and
  `userId` (AND; an absent or empty parameter does not filter) and orders by
  `startTime` ascending.
- **Admin dashboard** (`admin.dfy`, module `Admin`). The list update applied
  after a `PATCH` of one booking's status, and the pending view with its count.
- **Resource catalog** (`catalog.dfy`, module `Catalog`). The search box
  filter: keep a resource when its lower-cased name, type or location contains
  the lower-cased search text.
- **Sequence helpers** (`seqs.dfy`, module `Seqs`). The `filter` the three
  parts share (proved to keep each matching element exactly as often as the input holds it), a counting reference for it, and "order-preserving subsequence".

Instants are integers (milliseconds, as held by a JavaScript `Date`). Statuses
are strings, as in the schema and the `PATCH` handler. `Pending` and
`Approved` are the only statuses the conflict query treats as active.

The model follows the code as written. It does not check `start < end` before admitting. It does not
return a not-found error for an unknown resource: the failed insert lands in
the generic 500 answer. It has no guard on status transitions. So an empty or
inverted interval is admitted whenever the conflict query finds nothing, and
`ResubmitConflictsIffNonEmpty` shows that such a booking does not even block
an identical copy of itself.

## Model

| member | source | states |
|---|---|---|
| `Bookings.FindConflict` | src/app/api/bookings/route.ts:35-46 | the conflict query finds a booking exactly when some stored booking has the request's resourceId, an active status (Pending or Approved), `startTime < end` and `endTime > start`; whatever it returns is such a stored booking |
| `Bookings.BlocksIffActiveOverlap` | src/app/api/bookings/route.ts:37-43 | a booking blocks iff same resource, status Pending or Approved, and half-open overlap; a booking ending exactly at `start` or starting exactly at `end` never blocks |
| `Bookings.OverlapsSymmetric` | src/app/api/bookings/route.ts:40-43 | the half-open overlap test is symmetric in its two intervals |
| `Bookings.AppendPreservesNoDoubleBooking` | src/app/api/bookings/route.ts:35-65 | appending a booking that the conflict query does not block keeps "no two active bookings of one resource overlap" |
| `Bookings.ResubmitConflictsIffNonEmpty` | src/app/api/bookings/route.ts:31-46 | after an admission, resubmitting the identical request conflicts iff `start < end` (there is no interval validation) |
| `Bookings.BookingStore.Post` | src/app/api/bookings/route.ts:26-71 | a conflict gives 409 with the fixed message and an unchanged table; otherwise a missing resource or a taken id gives 500 and an unchanged table; otherwise exactly one booking is appended, with status Pending, the fresh id and the request's resourceId, userId, userName, start, end and purpose, and the prior bookings are untouched; the no-double-booking invariant is kept |
| `Bookings.Matching` | src/app/api/bookings/route.ts:10-14 | the `where` of GET keeps exactly the bookings whose resourceId equals the parameter when one is given non-empty, AND whose userId does likewise, in table order, each as many times as it is stored |
| `Bookings.InsertByStart` | src/app/api/bookings/route.ts:18 | inserting into a list sorted by startTime gives a sorted list holding the old elements plus the new one |
| `Bookings.SortByStart` | src/app/api/bookings/route.ts:18 | `orderBy startTime asc` gives a list sorted by startTime that is a permutation of its input |
| `Bookings.ListBookings` | src/app/api/bookings/route.ts:4-20 | GET's result is sorted by startTime non-decreasing, is a permutation of the matching bookings, and contains a booking iff it is stored and matches both parameters |
| `Bookings.ListWithoutFiltersIsEverything` | src/app/api/bookings/route.ts:10-14 | with neither parameter (or both empty) GET returns every booking |
| `Admin.SetStatus` | src/app/admin/page.tsx:56 | the `map` keeps length and order, sets the requested status on every booking with the given id and leaves every other booking unchanged |
| `Admin.HandleStatusUpdate` | src/app/admin/page.tsx:48-61 | after an ok PATCH the booking with the id has the requested status and all others are unchanged; after a non-ok response or a thrown request the list is unchanged |
| `Admin.PendingBookings` | src/app/admin/page.tsx:63 | the pending view contains exactly the bookings with status `Pending`, each as many times as in the list, as an order-preserving subsequence of the list |
| `Admin.PendingCountIsNumberOfPending` | src/app/admin/page.tsx:63-81 | the count on the Pending tab equals the number of Pending bookings, counted one by one |
| `Admin.ResolvedLeavesPendingView` | src/app/admin/page.tsx:55-63 | after an ok Approve or Reject (any non-Pending status) of id `x`, no booking with id `x` is in the pending view |
| `Admin.UpdateKeepsOtherPending` | src/app/admin/page.tsx:55-63 | a status update of id `x` never removes a pending booking with another id from the pending view |
| `Catalog.ToLower` | src/app/page.tsx:34-36 | lower-casing keeps the length, maps each character through ASCII lower-casing and leaves no upper-case ASCII letter |
| `Catalog.IncludesIffOccurs` | src/app/page.tsx:34-36 | `includes` holds exactly when the search text occurs at some index of the string |
| `Catalog.FilteredResources` | src/app/page.tsx:33-37 | the shown list is an order-preserving subsequence of the catalog and contains a resource iff the lower-cased search text is in its lower-cased name, type or present location, each kept resource as many times as in the catalog |
| `Catalog.AbsentLocationNeverMatches` | src/app/page.tsx:36 | a resource with a null location is kept only on its name or type |
| `Catalog.EmptySearchKeepsAll` | src/app/page.tsx:33-37 | an empty search shows the whole catalog, in order |
| `Catalog.ToLowerIdempotent` | src/app/page.tsx:34 | lower-casing twice is lower-casing once |
| `Catalog.CaseInsensitiveSearch` | src/app/page.tsx:34-36 | two searches that lower-case to the same text show the same list |
| `Catalog.SearchLowerCasedAgrees` | src/app/page.tsx:34-36 | a search and its lower-cased form show the same list |
| `Catalog.RefilterIsIdentity` | src/app/page.tsx:33-37 | filtering the shown list again with the same search changes nothing |

## Left out

- Date parsing. The request's `startTime` and `endTime` strings become `Date`s; the model takes integer instants directly. An unparsable date and its effect on the query are not modelled.
- The request body. A body that is not JSON, or one with missing fields, is not modelled; every field is assumed present.
- Database failures other than the two the insert is modelled to raise (unknown resource, id already used): connectivity errors and the like, which the source turns into the generic 500 answer of POST and of GET. The in-memory GET cannot fail.
- Id generation. The database generates the booking id; `Post` takes it as the parameter `newId`.
- The `include: { resource: true }` join of GET. It is display data; the model returns bookings without their resource.
- The race between two concurrent POSTs, which can both pass the conflict query before either inserts. Requests are modelled as sequential calls.
- The server-side PATCH handler `src/app/api/bookings/[id]/route.ts`. The admin model takes the outcome of the PATCH (ok, not ok, threw) as a parameter. The handler writes any status with no transition guard.
- Resource status (Available/Unavailable). The admission code never consults it.
- The resources API, the seed script, data fetching (`fetchData`) and all rendering.
- `Admin.HandleStatusUpdate`: updates are modelled one at a time. The handler maps over the list captured at the render that created it, so when two PATCHes are in flight, the second `setBookings` can restore the first booking's old status on the client (a lost update), and that booking shows again in the pending view although the server stored the new status. `Admin.ResolvedLeavesPendingView` holds only for updates that do not overlap.
- `Catalog.ToLower`: lower-cases ASCII letters only, not the full Unicode case mapping of `toLowerCase`.
- `Bookings.ListBookings`: the database leaves the order of bookings with equal start times unspecified; the model sorts stably, and its contract promises only sortedness and the permutation.
