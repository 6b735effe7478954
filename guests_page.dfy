/** The Guests page: RSVP counts, the empty state, and the delete handler that
    drops a guest from its `guests` state once the guest store has deleted it. */
module GuestsPage {
  import opened Common
  import opened Entities

  /** The number of guests with exactly this `rsvpStatus`. */
  function StatusCount(guests: seq<Guest>, status: string): nat
  {
    Count(guests, (g: Guest) => g.rsvpStatus == status)
  }

  /** `confirmedGuests` */
  function ConfirmedCount(guests: seq<Guest>): nat
  {
    StatusCount(guests, "Confirmed")
  }

  /** `pendingGuests` */
  function PendingCount(guests: seq<Guest>): nat
  {
    StatusCount(guests, "Pending")
  }

  /** `declinedGuests` */
  function DeclinedCount(guests: seq<Guest>): nat
  {
    StatusCount(guests, "Declined")
  }

  /** A guest counts under at most one status, so the three counts never exceed the
      list; a status other than the three is counted nowhere. */
  lemma CountsWithinTotal(guests: seq<Guest>)
    ensures ConfirmedCount(guests) + PendingCount(guests) + DeclinedCount(guests) <= |guests|
  {
    CountDisjoint3(guests, (g: Guest) => g.rsvpStatus == "Confirmed",
                           (g: Guest) => g.rsvpStatus == "Pending",
                           (g: Guest) => g.rsvpStatus == "Declined");
  }

  /** When every guest has one of the three statuses the counts add up to the list. */
  lemma {:induction false} CountsCoverKnownStatuses(guests: seq<Guest>)
    requires forall i :: 0 <= i < |guests| ==> guests[i].rsvpStatus in {"Confirmed", "Pending", "Declined"}
    ensures ConfirmedCount(guests) + PendingCount(guests) + DeclinedCount(guests) == |guests|
  {
    if guests != [] {
      CountsCoverKnownStatuses(guests[1..]);
    }
  }

  /** Whether the page shows its empty state instead of the table. */
  function ShowsEmptyState(guests: seq<Guest>): (r: bool)
    ensures r <==> guests == []
  {
    |guests| == 0
  }

  /** The list after a delete: every guest with that Id gone, the rest in order. */
  function WithoutGuest(guests: seq<Guest>, id: int): (r: seq<Guest>)
    ensures forall i :: 0 <= i < |r| ==> r[i].id != id && r[i] in guests
    ensures forall i :: 0 <= i < |guests| && guests[i].id != id ==> guests[i] in r
  {
    Filter(guests, (g: Guest) => g.id != id)
  }

  /** A delete keeps the list's order: what is left of a list and of its continuation
      appears in that order. */
  lemma WithoutGuestAppend(a: seq<Guest>, b: seq<Guest>, id: int)
    ensures WithoutGuest(a + b, id) == WithoutGuest(a, id) + WithoutGuest(b, id)
  {
    FilterAppend(a, b, (g: Guest) => g.id != id);
  }

  /** Deleting an Id no guest has leaves the list as it was. */
  lemma WithoutGuestUnknownId(guests: seq<Guest>, id: int)
    requires forall i :: 0 <= i < |guests| ==> guests[i].id != id
    ensures WithoutGuest(guests, id) == guests
  {
    FilterAllPass(guests, (g: Guest) => g.id != id);
  }

  class Page {
    /** The page's `guests` state. */
    var guests: seq<Guest>

    constructor (loaded: seq<Guest>)
      ensures guests == loaded
    {
      guests := loaded;
    }

    /** `handleDeleteGuest`: the list changes only after a successful store delete. */
    method DeleteGuest(id: int, storeAccepts: bool)
      modifies this
      ensures guests == if storeAccepts then WithoutGuest(old(guests), id) else old(guests)
    {
      if storeAccepts {
        guests := WithoutGuest(guests, id);
      }
    }
  }

  /** Deleting a guest leaves the counts of the other guests' statuses as they were
      among the guests that remain: a delete never raises any count. */
  lemma DeleteLowersCounts(guests: seq<Guest>, id: int, status: string)
    ensures StatusCount(WithoutGuest(guests, id), status) <= StatusCount(guests, status)
  {
    FilterOfFilter(guests, (g: Guest) => g.id != id, (g: Guest) => g.rsvpStatus == status);
  }
}
