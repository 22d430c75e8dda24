/** The booking API (`/api/bookings`): admission of a new booking request
    against the bookings already stored, and the filtered, ordered listing.
    The Prisma `booking` table is an in-memory sequence of records held by a
    `BookingStore`; the `resource` table is the set of its ids, which is all
    that the insert consults (through its foreign key). Instants are integers
    (milliseconds, as a JavaScript `Date` holds them). */
module Bookings {
  import opened Seqs

  type Instant = int

  /** The two statuses that take part in the conflict query. Status is a
      free string in the schema and in the PATCH handler. */
  const Pending := "Pending"
  const Approved := "Approved"

  const ConflictMessage := "This resource is already booked for the selected time slot."
  const CreateFailedMessage := "Failed to create booking"

  datatype Booking = Booking(
    id: string,
    resourceId: string,
    userId: string,
    userName: string,
    startTime: Instant,
    endTime: Instant,
    purpose: string,
    status: string)

  /** The JSON body of a POST. */
  datatype BookingRequest = BookingRequest(
    resourceId: string,
    startTime: Instant,
    endTime: Instant,
    userId: string,
    userName: string,
    purpose: string)

  /** What POST answers: the created booking, or an HTTP error code and message. */
  datatype Response = Created(booking: Booking) | Error(code: int, message: string)

  /** Half-open intervals [s1, e1) and [s2, e2) share an instant. */
  predicate Overlaps(s1: Instant, e1: Instant, s2: Instant, e2: Instant)
  {
    s1 < e2 && s2 < e1
  }

  /** A booking in one of these states blocks others on its resource. */
  predicate IsActive(status: string)
  {
    status == Pending || status == Approved
  }

  /** The where-clause of the conflict query: same resource, active status,
      `startTime < end` and `endTime > start`. */
  predicate Blocks(b: Booking, resourceId: string, start: Instant, end: Instant)
  {
    b.resourceId == resourceId && IsActive(b.status) && b.startTime < end && b.endTime > start
  }

  /** `findFirst` of the conflict query. Without an `orderBy` the database may
      return any matching row; the model returns the first in table order, one
      admissible choice, and its contract does not rely on which. */
  function FindConflict(bookings: seq<Booking>, resourceId: string, start: Instant, end: Instant): (r: Option<Booking>)
    ensures r.Some? ==> r.value in bookings && Blocks(r.value, resourceId, start, end)
    ensures r.None? <==> forall b :: b in bookings ==> !Blocks(b, resourceId, start, end)
  {
    if bookings == [] then None
    else if Blocks(bookings[0], resourceId, start, end) then Some(bookings[0])
    else FindConflict(bookings[1..], resourceId, start, end)
  }

  /** The record the insert writes for a request. */
  function NewBooking(req: BookingRequest, id: string): Booking
  {
    Booking(id, req.resourceId, req.userId, req.userName, req.startTime, req.endTime, req.purpose, Pending)
  }

  predicate IdInUse(bookings: seq<Booking>, id: string)
  {
    exists b :: b in bookings && b.id == id
  }

  /** No two active bookings of one resource overlap. */
  predicate NoDoubleBooking(bookings: seq<Booking>)
  {
    forall i, j :: 0 <= i < j < |bookings| ==>
      !(bookings[i].resourceId == bookings[j].resourceId
        && IsActive(bookings[i].status) && IsActive(bookings[j].status)
        && Overlaps(bookings[i].startTime, bookings[i].endTime, bookings[j].startTime, bookings[j].endTime))
  }

  /** The overlap test does not depend on which interval comes first. */
  lemma OverlapsSymmetric(s1: Instant, e1: Instant, s2: Instant, e2: Instant)
    ensures Overlaps(s1, e1, s2, e2) <==> Overlaps(s2, e2, s1, e1)
  {
  }

  /** A stored booking blocks a request exactly when it is active, on the same
      resource, and its interval overlaps the requested one; so a booking that
      ends exactly at `start`, or starts exactly at `end`, never blocks, and
      neither does one in any status other than Pending or Approved. */
  lemma BlocksIffActiveOverlap(b: Booking, resourceId: string, start: Instant, end: Instant)
    ensures Blocks(b, resourceId, start, end) <==>
      b.resourceId == resourceId && (b.status == Pending || b.status == Approved)
      && Overlaps(b.startTime, b.endTime, start, end)
    ensures b.endTime == start || b.startTime == end ==> !Blocks(b, resourceId, start, end)
  {
  }

  /** Appending a booking that nothing active on its resource overlaps keeps
      the table free of double bookings. */
  lemma {:induction false} AppendPreservesNoDoubleBooking(bookings: seq<Booking>, nb: Booking)
    requires NoDoubleBooking(bookings)
    requires FindConflict(bookings, nb.resourceId, nb.startTime, nb.endTime).None?
    ensures NoDoubleBooking(bookings + [nb])
  {
    var s := bookings + [nb];
    forall i, j | 0 <= i < j < |s|
      ensures !(s[i].resourceId == s[j].resourceId && IsActive(s[i].status) && IsActive(s[j].status)
                && Overlaps(s[i].startTime, s[i].endTime, s[j].startTime, s[j].endTime))
    {
      if j == |bookings| {
        assert s[i] in bookings;
        assert !Blocks(s[i], nb.resourceId, nb.startTime, nb.endTime);
      } else {
        assert s[i] == bookings[i] && s[j] == bookings[j];
      }
    }
  }

  /** After a successful admission, the identical request is refused again
      exactly when its interval is non-empty: an empty or inverted interval
      [start, end) with end <= start never meets the conflict test, not even
      against its own copy. */
  lemma ResubmitConflictsIffNonEmpty(bookings: seq<Booking>, req: BookingRequest, id: string)
    requires FindConflict(bookings, req.resourceId, req.startTime, req.endTime).None?
    ensures FindConflict(bookings + [NewBooking(req, id)], req.resourceId, req.startTime, req.endTime).Some?
            <==> req.startTime < req.endTime
  {
  }

  /** The booking table as the API sees it. `resources` is the set of ids in
      the resource table, the target of the booking's foreign key. */
  class BookingStore {
    var bookings: seq<Booking>
    var resources: set<string>

    ghost predicate Valid()
      reads this
    {
      NoDoubleBooking(bookings)
    }

    constructor (resources: set<string>)
      ensures Valid()
      ensures bookings == [] && this.resources == resources
    {
      bookings := [];
      this.resources := resources;
    }

    /** POST /api/bookings. The conflict query runs first; a hit answers 409
        and writes nothing. Otherwise the insert runs, and it fails (500) when
        the resource does not exist or the generated id `newId` is taken;
        when it succeeds, exactly one Pending booking carrying the request's
        fields is appended. No `start < end` check is made. */
    method Post(req: BookingRequest, newId: string) returns (r: Response)
      requires Valid()
      modifies this`bookings
      ensures Valid()
      ensures FindConflict(old(bookings), req.resourceId, req.startTime, req.endTime).Some? ==>
        r == Error(409, ConflictMessage) && bookings == old(bookings)
      ensures FindConflict(old(bookings), req.resourceId, req.startTime, req.endTime).None?
              && (req.resourceId !in resources || IdInUse(old(bookings), newId)) ==>
        r == Error(500, CreateFailedMessage) && bookings == old(bookings)
      ensures FindConflict(old(bookings), req.resourceId, req.startTime, req.endTime).None?
              && req.resourceId in resources && !IdInUse(old(bookings), newId) ==>
        r == Created(Booking(newId, req.resourceId, req.userId, req.userName,
                             req.startTime, req.endTime, req.purpose, Pending))
        && bookings == old(bookings) + [r.booking]
    {
      var conflict := FindConflict(bookings, req.resourceId, req.startTime, req.endTime);
      if conflict.Some? {
        return Error(409, ConflictMessage);
      }
      if req.resourceId !in resources || IdInUse(bookings, newId) {
        return Error(500, CreateFailedMessage);
      }
      var booking := NewBooking(req, newId);
      AppendPreservesNoDoubleBooking(bookings, booking);
      bookings := bookings + [booking];
      r := Created(booking);
    }
  }

  /** A client of the store: on one resource, [540, 600) is admitted; an
      overlapping [570, 630) is refused with 409; [600, 660), which starts
      exactly when the first ends, is admitted; and repeating the first
      request is refused. */
  method BoundaryScenario()
  {
    var store := new BookingStore({"lab"});
    var first := BookingRequest("lab", 540, 600, "user-123", "Ann", "lecture");
    var r1 := store.Post(first, "b1");
    assert r1.Created? && r1.booking.status == Pending;
    var r2 := store.Post(BookingRequest("lab", 570, 630, "user-123", "Ann", "lab"), "b2");
    assert Blocks(store.bookings[0], "lab", 570, 630);
    assert r2 == Error(409, ConflictMessage);
    var r3 := store.Post(BookingRequest("lab", 600, 660, "user-123", "Ann", "lab"), "b3");
    assert r3.Created?;
    var r4 := store.Post(first, "b4");
    assert Blocks(store.bookings[0], "lab", 540, 600);
    assert r4 == Error(409, ConflictMessage);
  }

  /** A search parameter filters only when it is present and non-empty. */
  predicate MatchesParam(value: string, param: Option<string>)
  {
    param.None? || param.value == "" || value == param.value
  }

  predicate MatchesQuery(b: Booking, resourceId: Option<string>, userId: Option<string>)
  {
    MatchesParam(b.resourceId, resourceId) && MatchesParam(b.userId, userId)
  }

  /** The `where` of GET: the bookings matching both parameters, in table order. */
  function Matching(bookings: seq<Booking>, resourceId: Option<string>, userId: Option<string>): (r: seq<Booking>)
    ensures IsSubsequence(r, bookings)
    ensures forall b :: b in r <==>
      (b in bookings
       && (resourceId.None? || resourceId.value == "" || b.resourceId == resourceId.value)
       && (userId.None? || userId.value == "" || b.userId == userId.value))
    ensures forall b :: multiset(r)[b] == if MatchesQuery(b, resourceId, userId) then multiset(bookings)[b] else 0
  {
    Filter(bookings, (b: Booking) => MatchesQuery(b, resourceId, userId))
  }

  predicate SortedByStart(s: seq<Booking>)
  {
    forall i, j :: 0 <= i < j < |s| ==> s[i].startTime <= s[j].startTime
  }

  /** A booking that starts no later than the head of a sorted list can go in front. */
  lemma SortedCons(x: Booking, s: seq<Booking>)
    requires SortedByStart(s)
    requires s != [] ==> x.startTime <= s[0].startTime
    ensures SortedByStart([x] + s)
  {
    var r := [x] + s;
    forall i, j | 0 <= i < j < |r|
      ensures r[i].startTime <= r[j].startTime
    {
      if i == 0 && j > 1 {
        assert r[j] == s[j - 1];
      }
    }
  }

  /** Inserts `b` before the first element that does not start earlier. */
  function InsertByStart(b: Booking, s: seq<Booking>): (r: seq<Booking>)
    requires SortedByStart(s)
    ensures SortedByStart(r)
    ensures multiset(r) == multiset(s) + multiset{b}
    ensures r[0] == b || r[0] == s[0]
  {
    if s == [] then [b]
    else if b.startTime <= s[0].startTime then
      SortedCons(b, s);
      [b] + s
    else
      var rest := InsertByStart(b, s[1..]);
      SortedCons(s[0], rest);
      assert s == [s[0]] + s[1..];
      [s[0]] + rest
  }

  /** `orderBy: { startTime: 'asc' }`. */
  function SortByStart(s: seq<Booking>): (r: seq<Booking>)
    ensures SortedByStart(r)
    ensures multiset(r) == multiset(s)
  {
    if s == [] then []
    else
      assert s == [s[0]] + s[1..];
      InsertByStart(s[0], SortByStart(s[1..]))
  }

  /** GET /api/bookings?resourceId=&userId=: the matching bookings, ordered
      by start time ascending. */
  function ListBookings(bookings: seq<Booking>, resourceId: Option<string>, userId: Option<string>): (r: seq<Booking>)
    ensures SortedByStart(r)
    ensures multiset(r) == multiset(Matching(bookings, resourceId, userId))
    ensures forall b :: b in r <==> b in bookings && MatchesQuery(b, resourceId, userId)
  {
    var m := Matching(bookings, resourceId, userId);
    var r := SortByStart(m);
    SameMembers(r, m);
    r
  }

  /** With neither parameter (or both empty) GET returns every booking. */
  lemma ListWithoutFiltersIsEverything(bookings: seq<Booking>, resourceId: Option<string>, userId: Option<string>)
    requires resourceId.None? || resourceId.value == ""
    requires userId.None? || userId.value == ""
    ensures multiset(ListBookings(bookings, resourceId, userId)) == multiset(bookings)
  {
    FilterKeepsAll(bookings, (b: Booking) => MatchesQuery(b, resourceId, userId));
  }
}
