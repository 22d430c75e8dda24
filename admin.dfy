/** The admin dashboard's client-side list handling: the status update it
    applies after a PATCH of one booking, and the pending view (and its count)
    derived from the list. The list holds the bookings GET returned; the
    joined resource name and type are display data and are not modelled. */
module Admin {
  import opened Seqs
  import opened Bookings

  /** How the PATCH request ended: `res.ok`, a non-ok response, or a thrown fetch. */
  datatype PatchOutcome = Ok | NotOk | Threw

  /** `bookings.map(b => b.id === id ? { ...b, status } : b)`. */
  function SetStatus(bookings: seq<Booking>, id: string, status: string): (r: seq<Booking>)
    ensures |r| == |bookings|
    ensures forall i :: 0 <= i < |bookings| && bookings[i].id == id ==> r[i] == bookings[i].(status := status)
    ensures forall i :: 0 <= i < |bookings| && bookings[i].id != id ==> r[i] == bookings[i]
  {
    if bookings == [] then []
    else
      var b := bookings[0];
      [if b.id == id then b.(status := status) else b] + SetStatus(bookings[1..], id, status)
  }

  /** `handleStatusUpdate(id, status)`: the list that results when this PATCH
      ends, given the list `bookings` the handler captured. Only an ok response
      replaces the list; otherwise it stays as it was. Updates are taken one at
      a time: the handler maps over the list of the render that created it, so
      two overlapping updates can overwrite each other, which is not modelled. */
  function HandleStatusUpdate(bookings: seq<Booking>, id: string, status: string, outcome: PatchOutcome): (r: seq<Booking>)
    ensures |r| == |bookings|
    ensures forall i :: 0 <= i < |bookings| ==>
      r[i] == if outcome == Ok && bookings[i].id == id then bookings[i].(status := status) else bookings[i]
  {
    if outcome == Ok then SetStatus(bookings, id, status) else bookings
  }

  predicate IsPendingBooking(b: Booking)
  {
    b.status == Pending
  }

  /** `bookings.filter(b => b.status === 'Pending')`. */
  function PendingBookings(bookings: seq<Booking>): (r: seq<Booking>)
    ensures IsSubsequence(r, bookings)
    ensures forall b :: b in r <==> b in bookings && b.status == Pending
    ensures forall b :: multiset(r)[b] == if b.status == Pending then multiset(bookings)[b] else 0
  {
    Filter(bookings, IsPendingBooking)
  }

  /** The count shown on the "Pending" tab is the number of Pending bookings. */
  lemma PendingCountIsNumberOfPending(bookings: seq<Booking>)
    ensures |PendingBookings(bookings)| == Count(bookings, IsPendingBooking)
  {
    FilterLength(bookings, IsPendingBooking);
  }

  /** After an ok Approve or Reject (any status other than Pending) of `id`,
      no booking with that id is left in the pending view. This holds whether
      or not ids are unique, since the update rewrites every booking with the id. */
  lemma ResolvedLeavesPendingView(bookings: seq<Booking>, id: string, status: string)
    requires status != Pending
    ensures forall b :: b in PendingBookings(HandleStatusUpdate(bookings, id, status, Ok)) ==> b.id != id
  {
  }

  /** Bookings other than `id` keep their place in the pending view: an ok
      update of `id` leaves every other pending booking pending. */
  lemma UpdateKeepsOtherPending(bookings: seq<Booking>, id: string, status: string, outcome: PatchOutcome)
    ensures forall b :: b in PendingBookings(bookings) && b.id != id ==>
      b in PendingBookings(HandleStatusUpdate(bookings, id, status, outcome))
  {
  }
}
