/** The guest table organism: search on name or e-mail ignoring the case of ASCII
    letters, combined with an RSVP filter, the RSVP badge, and the table-number column. */
module GuestTable {
  import opened Common
  import opened Entities
  import opened Text

  /** The name or the e-mail, lower-cased, contains the lower-cased search term. */
  predicate MatchesSearch(g: Guest, term: string)
  {
    Contains(Lower(g.name), Lower(term)) || Contains(Lower(g.email), Lower(term))
  }

  /** An empty status filter matches every guest. */
  predicate MatchesStatus(g: Guest, statusFilter: string)
  {
    statusFilter == "" || g.rsvpStatus == statusFilter
  }

  /** `filteredGuests` */
  function FilteredGuests(guests: seq<Guest>, term: string, statusFilter: string): (r: seq<Guest>)
    ensures forall i :: 0 <= i < |r| ==> r[i] in guests && MatchesSearch(r[i], term) && MatchesStatus(r[i], statusFilter)
    ensures forall i :: 0 <= i < |guests| && MatchesSearch(guests[i], term) && MatchesStatus(guests[i], statusFilter) ==>
      guests[i] in r
  {
    Filter(guests, (g: Guest) => MatchesSearch(g, term) && MatchesStatus(g, statusFilter))
  }

  /** With no search term and no status the table lists every guest, in order. */
  lemma EmptySearchShowsAll(guests: seq<Guest>)
    ensures FilteredGuests(guests, "", "") == guests
  {
    forall i | 0 <= i < |guests|
      ensures MatchesSearch(guests[i], "")
    {
      assert OccursAt(Lower(guests[i].name), Lower(""), 0);
    }
    FilterAllPass(guests, (g: Guest) => MatchesSearch(g, "") && MatchesStatus(g, ""));
  }

  /** The search ignores the case of the term. */
  lemma SearchIgnoresCase(guests: seq<Guest>, term: string, statusFilter: string)
    ensures FilteredGuests(guests, Lower(term), statusFilter) == FilteredGuests(guests, term, statusFilter)
  {
    LowerIdempotent(term);
    FilterSameVerdict(guests,
      (g: Guest) => MatchesSearch(g, Lower(term)) && MatchesStatus(g, statusFilter),
      (g: Guest) => MatchesSearch(g, term) && MatchesStatus(g, statusFilter));
  }

  /** A guest whose name is the term, in any case, is found unless the status filter excludes it. */
  lemma NameFindsGuest(guests: seq<Guest>, i: nat, statusFilter: string)
    requires i < |guests| && MatchesStatus(guests[i], statusFilter)
    ensures guests[i] in FilteredGuests(guests, guests[i].name, statusFilter)
  {
    assert OccursAt(Lower(guests[i].name), Lower(guests[i].name), 0);
  }

  /** `getStatusBadge`: Pending warning, Confirmed success, Declined error, otherwise info. */
  function StatusBadge(status: string): (v: Variant)
    ensures v == Warning <==> status == "Pending"
    ensures v == Success <==> status == "Confirmed"
    ensures v == Error <==> status == "Declined"
    ensures v == Info <==> status !in {"Pending", "Confirmed", "Declined"}
  {
    if status == "Pending" then Warning
    else if status == "Confirmed" then Success
    else if status == "Declined" then Error
    else Info
  }

  /** `guest.tableNumber || 'Not assigned'`: a missing table and table 0 both read
      'Not assigned'; any other number is printed. */
  function TableCell(tableNumber: Option<int>): (cell: string)
    ensures cell == "Not assigned" <==> tableNumber.None? || tableNumber.value == 0
    ensures tableNumber.Some? && tableNumber.value != 0 ==> cell == DecimalString(tableNumber.value)
  {
    if tableNumber.None? || tableNumber.value == 0 then "Not assigned"
    else
      var s := DecimalString(tableNumber.value);
      assert s[0] != 'N';
      s
  }
}
