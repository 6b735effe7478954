/** The vendor grid organism: the payment badge of a vendor card and whether the
    card shows a balance-due line. */
module VendorGrid {
  import opened Entities

  datatype Badge = Badge(variant: Variant, text: string)

  /** A vendor whose deposit is paid and who is owed nothing. */
  predicate PaidInFull(v: Vendor)
  {
    v.depositPaid && v.balanceDue == 0
  }

  /** `getStatusBadge`: paid in full, deposit paid with a balance left, or payment due
      (whatever the balance) when the deposit is not paid. */
  function StatusBadge(v: Vendor): (b: Badge)
    ensures b == Badge(Success, "Paid in Full") <==> v.depositPaid && v.balanceDue == 0
    ensures b == Badge(Warning, "Deposit Paid") <==> v.depositPaid && v.balanceDue != 0
    ensures b == Badge(Error, "Payment Due") <==> !v.depositPaid
  {
    if v.depositPaid && v.balanceDue == 0 then Badge(Success, "Paid in Full")
    else if v.depositPaid then Badge(Warning, "Deposit Paid")
    else Badge(Error, "Payment Due")
  }

  /** The card labels a vendor 'Paid in Full' exactly when `PaidInFull` holds. */
  lemma PaidInFullLabel(v: Vendor)
    ensures StatusBadge(v).text == "Paid in Full" <==> PaidInFull(v)
  {
    assert "Deposit Paid" != "Paid in Full" && "Payment Due" != "Paid in Full";
  }

  /** Whether the card shows its 'Balance Due' line. */
  function ShowsBalanceDue(v: Vendor): (r: bool)
    ensures r <==> v.balanceDue > 0
  {
    v.balanceDue > 0
  }

  /** A card with a balance-due line never says 'Paid in Full'; a negative balance
      shows neither. */
  lemma BalanceLineExcludesPaidInFull(v: Vendor)
    ensures ShowsBalanceDue(v) ==> StatusBadge(v).variant != Success
  {
  }
}
