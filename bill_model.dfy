/** The bill record shared by the employee and admin containers, its status
    vocabulary and the routes the containers navigate to. */
module BillModel {

  datatype Option<+T> = None | Some(value: T)

  const PENDING: string := "pending"
  const ACCEPTED: string := "accepted"
  const REFUSED: string := "refused"

  /** The three statuses the triage dashboard knows. */
  const STATUSES: set<string> := {PENDING, ACCEPTED, REFUSED}

  /** A bill as the store holds it. `id` is absent on a record the employee
      form builds (the store keys it by the upload's key instead);
      `amount` is None where parsing gave NaN; `fileUrl`/`fileName` are None
      (null) until an upload resolves; `commentAdmin` is absent until triage.
      The status is kept as the store's string, so bills with any other
      status string can be listed and filtered. */
  datatype Bill = Bill(
    id: Option<string>,
    email: string,
    expenseType: string,
    name: string,
    amount: Option<int>,
    date: string,
    vat: string,
    pct: int,
    commentary: string,
    fileUrl: Option<string>,
    fileName: Option<string>,
    status: string,
    commentAdmin: Option<string>)

  /** The symbolic routes of the application's router. */
  datatype Route = BillsRoute | DashboardRoute
}
