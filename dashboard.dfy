/** The Dashboard page: four progress ratios guarded against empty denominators, the
    upcoming-tasks card and the style of the remaining budget. Percentages are real
    numbers. */
module Dashboard {
  import opened Common
  import opened Entities
  import BudgetPage
  import GuestsPage
  import VendorGrid

  /** `whole > 0 ? (part / whole) * 100 : 0` */
  function Percent(part: int, whole: int): (p: real)
    ensures whole <= 0 ==> p == 0.0
    ensures whole > 0 ==> p * (whole as real) == (part as real) * 100.0
  {
    if whole > 0 then (part as real / whole as real) * 100.0 else 0.0
  }

  /** A part of a whole gives a percentage between 0 and 100. */
  lemma PercentOfPart(part: nat, whole: nat)
    requires part <= whole
    ensures 0.0 <= Percent(part, whole) <= 100.0
  {
    if whole > 0 {
      assert (part as real / whole as real) <= 1.0;
    }
  }

  /** `taskProgress` */
  function TaskProgress(tasks: seq<Task>): (p: real)
    ensures 0.0 <= p <= 100.0
    ensures tasks == [] ==> p == 0.0
  {
    var done := Count(tasks, (t: Task) => t.completed);
    PercentOfPart(done, |tasks|);
    Percent(done, |tasks|)
  }

  /** `guestProgress`: confirmed guests over all guests. */
  function GuestProgress(guests: seq<Guest>): (p: real)
    ensures 0.0 <= p <= 100.0
    ensures guests == [] ==> p == 0.0
  {
    var confirmed := GuestsPage.ConfirmedCount(guests);
    PercentOfPart(confirmed, |guests|);
    Percent(confirmed, |guests|)
  }

  /** `paidVendors`, by the rule the vendor grid uses for 'Paid in Full'. */
  function PaidVendors(vendors: seq<Vendor>): (n: nat)
    ensures n <= |vendors|
  {
    Count(vendors, VendorGrid.PaidInFull)
  }

  /** `vendorProgress` */
  function VendorProgress(vendors: seq<Vendor>): (p: real)
    ensures 0.0 <= p <= 100.0
    ensures vendors == [] ==> p == 0.0
  {
    PercentOfPart(PaidVendors(vendors), |vendors|);
    Percent(PaidVendors(vendors), |vendors|)
  }

  /** `budgetProgress`: spent over budgeted, 0 unless the budget is positive. */
  function BudgetProgress(items: seq<BudgetItem>): (p: real)
    ensures BudgetPage.TotalBudget(items) <= 0 ==> p == 0.0
    ensures BudgetPage.TotalBudget(items) > 0 ==>
      p * (BudgetPage.TotalBudget(items) as real) == (BudgetPage.TotalSpent(items) as real) * 100.0
  {
    Percent(BudgetPage.TotalSpent(items), BudgetPage.TotalBudget(items))
  }

  /** Budget progress passes 100 exactly when more is spent than budgeted (with a
      positive budget), so it is not bounded like the others. */
  lemma BudgetProgressOver(items: seq<BudgetItem>)
    requires BudgetPage.TotalBudget(items) > 0
    ensures BudgetProgress(items) > 100.0 <==> BudgetPage.TotalSpent(items) > BudgetPage.TotalBudget(items)
  {
    var spent, budget := BudgetPage.TotalSpent(items) as real, BudgetPage.TotalBudget(items) as real;
    var p := BudgetProgress(items);
    assert p * budget == spent * 100.0;
    assert p * budget - 100.0 * budget == (p - 100.0) * budget;
    assert spent * 100.0 - budget * 100.0 == (spent - budget) * 100.0;
  }

  /** The titles of the Upcoming Tasks card: the first three incomplete tasks, in order. */
  function UpcomingTasks(tasks: seq<Task>): (r: seq<Task>)
    ensures |r| <= 3
    ensures forall i :: 0 <= i < |r| ==> !r[i].completed && r[i] in tasks
    ensures |r| == if Count(tasks, (t: Task) => !t.completed) < 3 then Count(tasks, (t: Task) => !t.completed) else 3
    ensures r == Filter(tasks, (t: Task) => !t.completed)[..|r|]
  {
    var open := Filter(tasks, (t: Task) => !t.completed);
    if |open| <= 3 then open else open[..3]
  }

  /** The "all completed" message shows exactly when the card lists no task. */
  function ShowsAllCompleted(tasks: seq<Task>): (r: bool)
    ensures r <==> UpcomingTasks(tasks) == []
    ensures r <==> forall i :: 0 <= i < |tasks| ==> tasks[i].completed
  {
    Count(tasks, (t: Task) => !t.completed) == 0
  }

  /** The style of the remaining budget: success when nothing is overspent. */
  function RemainingVariant(items: seq<BudgetItem>): (v: Variant)
    ensures v == Success <==> BudgetPage.TotalBudget(items) - BudgetPage.TotalSpent(items) >= 0
    ensures v == Error <==> BudgetPage.TotalBudget(items) - BudgetPage.TotalSpent(items) < 0
  {
    if BudgetPage.TotalBudget(items) - BudgetPage.TotalSpent(items) >= 0 then Success else Error
  }

  /** The dashboard styles the remaining budget as a success exactly when the
      Budget page labels it 'Remaining'. */
  lemma RemainingAgreesWithBudgetPage(items: seq<BudgetItem>)
    ensures RemainingVariant(items) == Success <==> BudgetPage.RemainingCard(BudgetPage.Remaining(items)).0 == "Remaining"
  {
  }
}
