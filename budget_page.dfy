/** The Budget page: the totals of its summary cards and the per-row difference,
    colour and payment status of its table. */
module BudgetPage {
  import opened Common
  import opened Entities

  /** `totalBudget` */
  function TotalBudget(items: seq<BudgetItem>): int
  {
    SumOf(items, (b: BudgetItem) => b.budgeted)
  }

  /** `totalSpent` */
  function TotalSpent(items: seq<BudgetItem>): int
  {
    SumOf(items, (b: BudgetItem) => b.actual)
  }

  /** `remaining` */
  function Remaining(items: seq<BudgetItem>): int
  {
    TotalBudget(items) - TotalSpent(items)
  }

  /** The totals of two lists of items together are the sums of their totals, so
      adding an item raises the budget by its budgeted amount, the spending by its
      actual amount, and changes the remaining budget by their difference. */
  lemma TotalsAppend(a: seq<BudgetItem>, b: seq<BudgetItem>)
    ensures TotalBudget(a + b) == TotalBudget(a) + TotalBudget(b)
    ensures TotalSpent(a + b) == TotalSpent(a) + TotalSpent(b)
    ensures Remaining(a + b) == Remaining(a) + Remaining(b)
  {
    SumOfAppend(a, b, (i: BudgetItem) => i.budgeted);
    SumOfAppend(a, b, (i: BudgetItem) => i.actual);
  }

  /** The third card: its label and the amount it shows, `Math.abs(remaining)`. */
  function RemainingCard(remaining: int): (card: (string, nat))
    ensures card.0 == "Remaining" <==> remaining >= 0
    ensures card.0 == "Over Budget" <==> remaining < 0
    ensures card.1 == if remaining >= 0 then remaining else -remaining
  {
    if remaining >= 0 then ("Remaining", remaining) else ("Over Budget", -remaining)
  }

  /** The label and the amount together give back the remaining budget. */
  lemma RemainingCardRecovers(remaining: int)
    ensures (if RemainingCard(remaining).0 == "Remaining" then RemainingCard(remaining).1 as int
             else -(RemainingCard(remaining).1 as int)) == remaining
  {
    assert "Remaining" != "Over Budget";
  }

  /** `difference` of a row. */
  function Difference(item: BudgetItem): int
  {
    item.actual - item.budgeted
  }

  /** The row differences add up to the overspend, the negated remaining budget. */
  lemma DifferencesSumToOverspend(items: seq<BudgetItem>)
    ensures SumOf(items, Difference) == -Remaining(items)
  {
    SumOfDifference(items, (b: BudgetItem) => b.actual, (b: BudgetItem) => b.budgeted, Difference);
  }

  /** The sign prefix of a row's difference: '+' only for an overspend. */
  function DifferencePrefix(difference: int): (prefix: string)
    ensures prefix == "+" <==> difference > 0
    ensures prefix == "" <==> difference <= 0
  {
    if difference > 0 then "+" else ""
  }

  /** The colour of a row's difference: error over, success under, gray on budget. */
  function DifferenceColour(difference: int): (v: Variant)
    ensures v == Error <==> difference > 0
    ensures v == Success <==> difference < 0
    ensures v == Gray <==> difference == 0
  {
    if difference > 0 then Error else if difference < 0 then Success else Gray
  }

  /** The '+' prefix appears exactly on rows coloured as errors. */
  lemma PrefixMatchesColour(difference: int)
    ensures DifferencePrefix(difference) == "+" <==> DifferenceColour(difference) == Error
  {
  }

  /** The status column: 'Paid' for a paid item, 'Pending' otherwise. */
  function StatusText(item: BudgetItem): (text: string)
    ensures text == "Paid" <==> item.paid
    ensures text == "Pending" <==> !item.paid
  {
    if item.paid then "Paid" else "Pending"
  }
}
