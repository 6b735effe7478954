/** The entities the pages and organisms display, with the fields they read.
    Dates are millisecond timestamps and amounts are whole numbers. */
module Entities {
  import opened Common

  /** A to-do item: `priority` is normally "High", "Medium" or "Low". */
  datatype Task = Task(id: int, title: string, category: string, priority: string, dueDate: int, completed: bool)

  /** An invitee: `rsvpStatus` is normally "Pending", "Confirmed" or "Declined";
      `tableNumber` is `None` for `null`. */
  datatype Guest = Guest(id: int, name: string, email: string, rsvpStatus: string, plusOne: bool, tableNumber: Option<int>)

  datatype Vendor = Vendor(id: int, name: string, category: string, cost: int, balanceDue: int, depositPaid: bool)

  datatype BudgetItem = BudgetItem(id: int, category: string, vendor: string, budgeted: int, actual: int, paid: bool)

  /** A timeline entry: `status` is normally "pending", "in-progress" or "completed". */
  datatype Milestone = Milestone(id: int, title: string, date: int, status: string)

  /** The badge colours of the design system. */
  datatype Variant = Success | Warning | Error | Info | Primary | Gray
}
