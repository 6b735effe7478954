/** The Vendors page: cost totals, the fully-paid count, and the delete handler that
    drops a vendor from its `vendors` state once the vendor store has deleted it. */
module VendorsPage {
  import opened Common
  import opened Entities
  import VendorGrid

  /** `totalCost` */
  function TotalCost(vendors: seq<Vendor>): int
  {
    SumOf(vendors, (v: Vendor) => v.cost)
  }

  /** The total cost of two lists of vendors together is the sum of their totals. */
  lemma TotalCostAppend(a: seq<Vendor>, b: seq<Vendor>)
    ensures TotalCost(a + b) == TotalCost(a) + TotalCost(b)
  {
    SumOfAppend(a, b, (v: Vendor) => v.cost);
  }

  /** The sum of the balances still due. */
  function TotalBalanceDue(vendors: seq<Vendor>): int
  {
    SumOf(vendors, (v: Vendor) => v.balanceDue)
  }

  /** `totalPaid`: the sum over vendors of what has been paid, cost minus balance. */
  function TotalPaid(vendors: seq<Vendor>): (paid: int)
    ensures paid == TotalCost(vendors) - TotalBalanceDue(vendors)
  {
    var r := SumOf(vendors, (v: Vendor) => v.cost - v.balanceDue);
    SumOfDifference(vendors, (v: Vendor) => v.cost, (v: Vendor) => v.balanceDue, (v: Vendor) => v.cost - v.balanceDue);
    r
  }

  /** `fullyPaidVendors` */
  function FullyPaidCount(vendors: seq<Vendor>): (n: nat)
    ensures n <= |vendors|
  {
    Count(vendors, (v: Vendor) => v.depositPaid && v.balanceDue == 0)
  }

  /** The page counts as fully paid exactly the cards the grid labels 'Paid in Full'. */
  lemma FullyPaidMatchesGrid(vendors: seq<Vendor>)
    ensures FullyPaidCount(vendors) == Count(vendors, (v: Vendor) => VendorGrid.StatusBadge(v).text == "Paid in Full")
  {
    forall i | 0 <= i < |vendors|
      ensures (vendors[i].depositPaid && vendors[i].balanceDue == 0) == (VendorGrid.StatusBadge(vendors[i]).text == "Paid in Full")
    {
      VendorGrid.PaidInFullLabel(vendors[i]);
    }
    FilterSameVerdict(vendors, (v: Vendor) => v.depositPaid && v.balanceDue == 0,
                               (v: Vendor) => VendorGrid.StatusBadge(v).text == "Paid in Full");
  }

  /** The list after a delete: every vendor with that Id gone, the rest in order. */
  function WithoutVendor(vendors: seq<Vendor>, id: int): (r: seq<Vendor>)
    ensures forall i :: 0 <= i < |r| ==> r[i].id != id && r[i] in vendors
    ensures forall i :: 0 <= i < |vendors| && vendors[i].id != id ==> vendors[i] in r
  {
    Filter(vendors, (v: Vendor) => v.id != id)
  }

  /** A delete keeps the list's order: what is left of a list and of its continuation
      appears in that order. */
  lemma WithoutVendorAppend(a: seq<Vendor>, b: seq<Vendor>, id: int)
    ensures WithoutVendor(a + b, id) == WithoutVendor(a, id) + WithoutVendor(b, id)
  {
    FilterAppend(a, b, (v: Vendor) => v.id != id);
  }

  /** Deleting an Id no vendor has leaves the list as it was. */
  lemma WithoutVendorUnknownId(vendors: seq<Vendor>, id: int)
    requires forall i :: 0 <= i < |vendors| ==> vendors[i].id != id
    ensures WithoutVendor(vendors, id) == vendors
  {
    FilterAllPass(vendors, (v: Vendor) => v.id != id);
  }

  class Page {
    /** The page's `vendors` state. */
    var vendors: seq<Vendor>

    constructor (loaded: seq<Vendor>)
      ensures vendors == loaded
    {
      vendors := loaded;
    }

    /** `handleDeleteVendor`: the list changes only after a successful store delete. */
    method DeleteVendor(id: int, storeAccepts: bool)
      modifies this
      ensures vendors == if storeAccepts then WithoutVendor(old(vendors), id) else old(vendors)
    {
      if storeAccepts {
        vendors := WithoutVendor(vendors, id);
      }
    }
  }

  /** Removing vendors removes their costs from the total: the total over the list is
      the total over the vendors kept plus the total over the vendors removed. */
  lemma {:induction false} DeleteSplitsCost(vendors: seq<Vendor>, id: int)
    ensures TotalCost(vendors) == TotalCost(WithoutVendor(vendors, id)) + TotalCost(Filter(vendors, (v: Vendor) => v.id == id))
  {
    if vendors != [] {
      DeleteSplitsCost(vendors[1..], id);
    }
  }
}
