# Billed: bill lifecycle and triage, modelled in Dafny

This project models the core of Billed, an expense-report web client.
Employees submit bills (receipts) with an attached image. Administrators
triage submitted bills into the `pending`, `accepted` and `refused` buckets.
Three containers hold the logic:

- `BillUtils.js`: filtering a bill list by status, the name shown on a bill's card, the list of cards, and the bucket-to-status lookup (module `BillUtils`, with the string splitting it relies on in `Strings`).
- `Dashboard.js`: the admin dashboard (module `DashboardContainer`).
  - A bucket arrow and a bill card are both toggles driven by one shared click counter.
  - Accepting or refusing a bill sends the updated record to the store.
- `NewBill.js`: the employee's new-bill form (module `NewBillContainer`).
  - File selection checks the extension and shows or hides an error annotation.
  - When a store is configured, every selection sends an upload (`create`) to it, and the upload's later resolution captures its key, URL and file name.
  - Submission builds the `pending` record, requests its update, and navigates to the bills page.

The pure helpers are Dafny functions, and the lemmas beside them state the
filter's order, idempotence and completeness properties. The two
containers are classes with the source's fields: `counter`, `index` and
`id` on the dashboard; `fileUrl`, `fileName` and `billId` on the form. Their
methods are proved against pure step functions (`ShowTicketsStep`,
`EditTicketStep`, `Annotate`, `SubmittedBill`, `Decide`), and the toggle
and annotation properties are lemmas about those functions.

A class's observable effects go in a ghost `log`, in order. These are view
output (bucket shown or hidden, form or placeholder shown), store requests
(`create`, `update`) and navigation requests. A store call's resolution is a
separate method, called once the request is pending (`CreateSettled`,
`UpdateSettled`).

Collaborators are parameters:
- The session's email is an argument.
- The `typeof jest` switch and the reserved test accounts are the `Env` value.
- `parseInt` is a function argument returning `None` for NaN.
- Whether a store is configured is the `store` flag.
- Routes are the symbols of `Route`.

The model keeps these behaviours of the code, some of which look unintended:

- The dashboard's two toggles, bucket and card, share one counter instead of keeping one each. `SharedCounterReexpands` shows a click sequence where this re-expands a bucket instead of collapsing it.
- The upload `create` is issued whatever the extension, and its success stores even a rejected file's name (`RejectedUploadScenario`).
- A file literally named `png` (no dot) is accepted, because the extension of a dot-free name is the whole name (`BareExtensionAccepted`).
- `pct` becomes 20 when the parse gives 0, not only when it gives NaN (`PctOrDefault`).
- Once an accepted file has hidden the error annotation, a later rejected file leaves it hidden (`HiddenAnnotationStaysHidden`).
- A failed upload leaves the earlier captured fields in place rather than clearing them (`NewBillContainer.NewBill.CreateSettled`).
- Without a store, `handleChangeFile` throws after updating the annotation. The model reports this as `raised` and issues no request.

## Model

| member | source | states |
|---|---|---|
| `BillUtils.FilterBills` | Billed-app-FR-Front-main/src/containers/BillUtils.js:4-20 | An absent or empty list gives `[]`. Every returned bill has the requested status. In the browser, no returned bill belongs to a test account or to the signed-in user. |
| `BillUtils.FilterSeq` | Billed-app-FR-Front-main/src/containers/BillUtils.js:5-19 | The filter's output is no longer than its input, and every element meets the selection condition. |
| `BillUtils.FilterIsSubsequence` | Billed-app-FR-Front-main/src/containers/BillUtils.js:5 | The output is a subsequence of the input: relative order is kept. |
| `BillUtils.FilterCounts` | Billed-app-FR-Front-main/src/containers/BillUtils.js:5-19 | Each bill occurs in the output as often as in the input when it is selected, and never otherwise. Nothing selected is dropped. |
| `BillUtils.FilterMembership` | Billed-app-FR-Front-main/src/containers/BillUtils.js:5-19 | A bill is in the output iff it is in the input and meets the selection condition. |
| `BillUtils.FilterIdempotent` | Billed-app-FR-Front-main/src/containers/BillUtils.js:4-20 | Filtering the output again with the same status returns it unchanged. |
| `BillUtils.FilterSeqAppend` | Billed-app-FR-Front-main/src/containers/BillUtils.js:5 | Filtering distributes over concatenation (a stable filter). |
| `BillUtils.FilterAppendOne` | Billed-app-FR-Front-main/src/containers/BillUtils.js:4-20 | Appending one bill to the list appends it to the filtered list exactly when it is selected. |
| `BillUtils.GetStatus` | Billed-app-FR-Front-main/src/containers/BillUtils.js:49-60 | 1 is pending, 2 accepted, 3 refused, and any other index is pending. The result is always one of the three statuses. |
| `BillUtils.GetStatusBuckets` | Billed-app-FR-Front-main/src/containers/BillUtils.js:49-60 | Each of the three statuses belongs to exactly one of buckets 1 to 3. |
| `BillUtils.BucketsPartition` | Billed-app-FR-Front-main/src/containers/BillUtils.js:4-20 | Under the test runner, with every status valid, the three buckets hold every bill exactly once. |
| `BillUtils.LocalPart` | Billed-app-FR-Front-main/src/containers/BillUtils.js:23 | The email's text before its first `@`: a prefix with no `@`, ending at an `@` or at the end. |
| `BillUtils.CardNames` | Billed-app-FR-Front-main/src/containers/BillUtils.js:23-27 | With a `.` in the local part, first name = the piece before the first `.` and last name = the next piece. Otherwise first name is `""` and last name is the whole local part. |
| `Strings.FirstTwoSegments` | Billed-app-FR-Front-main/src/containers/BillUtils.js:24-27 | The first segment runs up to the first separator, and the second from just after it up to the next separator or the end. |
| `BillUtils.Card` | Billed-app-FR-Front-main/src/containers/BillUtils.js:22-45 | A card shows the bill's id, the first and last name from `CardNames` of the owner's email, and the bill's name, amount, raw date and type. |
| `BillUtils.Cards` | Billed-app-FR-Front-main/src/containers/BillUtils.js:47 | No cards for an absent list. Otherwise one card per bill, card `i` showing bill `i`. |
| `Strings.Split` | Billed-app-FR-Front-main/src/containers/NewBill.js:25 | There is at least one piece, and no piece contains the separator. |
| `Strings.SplitJoins` | Billed-app-FR-Front-main/src/containers/NewBill.js:25 | The pieces join back to the input. There is more than one piece iff the input contains the separator. |
| `Strings.SplitUnique` | Billed-app-FR-Front-main/src/containers/NewBill.js:25 | Split is the only separator-free cutting that joins back to the input. |
| `Strings.LastSegmentIs` | Billed-app-FR-Front-main/src/containers/NewBill.js:26 | A separator-free suffix that starts the string or follows a separator is the last piece. |
| `NewBillContainer.FileName` | Billed-app-FR-Front-main/src/containers/NewBill.js:25-26 | The file name ends the path, contains no `\`, and follows a `\` or is the whole path. |
| `NewBillContainer.Extension` | Billed-app-FR-Front-main/src/containers/NewBill.js:32-33 | The extension ends the name, contains no `.`, and follows a `.`. A name without `.` is its own extension. |
| `NewBillContainer.HasExtensionIff` | Billed-app-FR-Front-main/src/containers/NewBill.js:32-33 | For a dot-free `ext`, the computed extension is `ext` iff the name is `ext` or ends with `.` followed by `ext`. |
| `NewBillContainer.AcceptedNames` | Billed-app-FR-Front-main/src/containers/NewBill.js:32-37 | A name is accepted iff it equals `jpeg`, `jpg` or `png`, or ends with `.` followed by one of them. The match is case-sensitive. |
| `NewBillContainer.PngAccepted` | Billed-app-FR-Front-main/src/containers/NewBill.js:25-37 | Selecting `<dir>\\<base>.png` gives the file name `<base>.png`, which is accepted. |
| `NewBillContainer.PdfRejected` | Billed-app-FR-Front-main/src/containers/NewBill.js:25-37 | Selecting `<dir>\\<base>.pdf` gives the file name `<base>.pdf`, which is rejected. |
| `NewBillContainer.UpperCaseRejected` | Billed-app-FR-Front-main/src/containers/NewBill.js:32-37 | The comparison is case-sensitive: any name ending in `.PNG` is rejected. |
| `NewBillContainer.BareExtensionAccepted` | Billed-app-FR-Front-main/src/containers/NewBill.js:32-37 | A dot-free file named just `jpeg`, `jpg` or `png` is accepted. |
| `NewBillContainer.Annotate` | Billed-app-FR-Front-main/src/containers/NewBill.js:37-50 | A rejection appends a visible annotation only when none exists. An acceptance hides the existing one and removes nothing. |
| `NewBillContainer.AtMostOneAnnotation` | Billed-app-FR-Front-main/src/containers/NewBill.js:40-46 | After any series of selections the form holds at most one annotation. |
| `NewBillContainer.HiddenAnnotationStaysHidden` | Billed-app-FR-Front-main/src/containers/NewBill.js:40-49 | Once hidden, the annotation stays hidden and single for every later series of selections. |
| `NewBillContainer.FirstRejectionShows` | Billed-app-FR-Front-main/src/containers/NewBill.js:37-46 | The first rejected file after only accepted ones shows one visible annotation. |
| `NewBillContainer.PctOrDefault` | Billed-app-FR-Front-main/src/containers/NewBill.js:77 | `parseInt(...) \|\| 20`: NaN or 0 gives 20; any other value is kept. The result is never 0. |
| `NewBillContainer.SubmittedBill` | Billed-app-FR-Front-main/src/containers/NewBill.js:70-82 | The record is `pending`, with the session email, the form fields, the parsed amount, the defaulted pct, and the captured `fileUrl`/`fileName`. It has no id and no admin comment. |
| `NewBillContainer.SubmittedBillIsPending` | Billed-app-FR-Front-main/src/containers/NewBill.js:81 | Appending a submitted bill to any list adds it to bucket 1 and to no other bucket. The browser still hides it when it belongs to a test account or to the signed-in user. |
| `NewBillContainer.NewBill.constructor` | Billed-app-FR-Front-main/src/containers/NewBill.js:15-17 | `fileUrl`, `fileName` and `billId` start null, with nothing pending and no annotation. |
| `NewBillContainer.NewBill.HandleChangeFile` | Billed-app-FR-Front-main/src/containers/NewBill.js:21-65 | The input keeps the path iff the extension is accepted, else it is cleared. The annotation follows `Annotate`. A create for the file and email is issued with a store, whatever the extension. The captured fields are unchanged. Without a store the handler throws. |
| `NewBillContainer.NewBill.ShowVerdict` | Billed-app-FR-Front-main/src/containers/NewBill.js:37-50 | The input keeps the path iff the file is accepted, else it is cleared. The annotation follows `Annotate`, and at most one annotation remains. |
| `NewBillContainer.NewBill.CreateSettled` | Billed-app-FR-Front-main/src/containers/NewBill.js:60-64 | On success, `billId` is the key, `fileUrl` the URL, and `fileName` the name captured when that file was selected. On failure these fields are unchanged and the error is logged. |
| `NewBillContainer.NewBill.UpdateBill` | Billed-app-FR-Front-main/src/containers/NewBill.js:88-98 | With a store: one update request keyed by `billId`. Without one: nothing. |
| `NewBillContainer.NewBill.HandleSubmit` | Billed-app-FR-Front-main/src/containers/NewBill.js:67-85 | The update of `SubmittedBill` (with a store) is followed at once by navigation to the bills page. |
| `NewBillContainer.NewBill.UpdateSettled` | Billed-app-FR-Front-main/src/containers/NewBill.js:93-96 | On success, navigation to the bills page is requested a second time. On failure, the error is logged. |
| `NewBillContainer.RejectedUploadScenario` | Billed-app-FR-Front-main/src/containers/NewBill.js:21-64 | On a new form, selecting `<dir>\\<base>.pdf` clears the input and shows one annotation. Once its upload succeeds, the form still holds the file's URL, the upload's key and the rejected name `<base>.pdf`. |
| `DashboardContainer.ShowTicketsStep` | Billed-app-FR-Front-main/src/containers/Dashboard.js:74-86 | An undefined counter or another bucket restarts the count, and the bucket expands. Otherwise the bucket expands iff the counter is even. The counter grows by exactly 1, and the index becomes the clicked bucket. |
| `DashboardContainer.EditTicketStep` | Billed-app-FR-Front-main/src/containers/Dashboard.js:29-47 | An undefined counter or another bill restarts the count, and the form is shown. Otherwise the form is shown iff the counter is even. The counter grows by exactly 1, and the id becomes the clicked bill's. |
| `DashboardContainer.ShowTicketsToggles` | Billed-app-FR-Front-main/src/containers/Dashboard.js:74-86 | A bucket click expands the bucket exactly when the counter's parity did not count it open, and afterwards the parity counts it open exactly when it expanded. |
| `DashboardContainer.ShowTicketsTwice` | Billed-app-FR-Front-main/src/containers/Dashboard.js:74-86 | Two clicks on one bucket alternate expanded and collapsed, and restore its open/closed parity. |
| `DashboardContainer.EditTicketToggles` | Billed-app-FR-Front-main/src/containers/Dashboard.js:29-47 | A card click shows the form exactly when the parity did not count that bill open. |
| `DashboardContainer.EditTicketTwice` | Billed-app-FR-Front-main/src/containers/Dashboard.js:29-47 | Two clicks on one card alternate form and placeholder. |
| `DashboardContainer.EditTicketFlipsBucket` | Billed-app-FR-Front-main/src/containers/Dashboard.js:29-46 | Because the counter is shared, a card click flips the parity the current bucket is judged by. |
| `DashboardContainer.SharedCounterReexpands` | Billed-app-FR-Front-main/src/containers/Dashboard.js:29-86 | The sequence expand bucket 1, open a bill, close it, click bucket 1 re-expands the bucket instead of collapsing it. |
| `DashboardContainer.Decide` | Billed-app-FR-Front-main/src/containers/Dashboard.js:54-58 | The copy has the new status and admin comment. Every other field, including the email, is the input bill's. |
| `DashboardContainer.AcceptedBillMovesBucket` | Billed-app-FR-Front-main/src/containers/Dashboard.js:53-61 | Appending an accepted bill to any list adds it to bucket 2 and to no other bucket, unless the browser hides its owner's bills. |
| `DashboardContainer.RefusedBillMovesBucket` | Billed-app-FR-Front-main/src/containers/Dashboard.js:63-71 | Appending a refused bill to any list adds it to bucket 3 and to no other bucket, unless the browser hides its owner's bills. |
| `DashboardContainer.Dashboard.constructor` | Billed-app-FR-Front-main/src/containers/Dashboard.js:9-19 | Counter, index and id start undefined, and no card handler is bound. |
| `DashboardContainer.Dashboard.HandleShowTickets` | Billed-app-FR-Front-main/src/containers/Dashboard.js:73-95 | The fields follow `ShowTicketsStep`. Expanding renders the cards of the filtered bucket, collapsing renders nothing. The given bills are returned unchanged, and each of their cards ends with exactly one handler. |
| `DashboardContainer.Dashboard.ToggleBucket` | Billed-app-FR-Front-main/src/containers/Dashboard.js:74-86 | The fields follow `ShowTicketsStep`. The bucket is rendered expanded with the cards of its filtered bills, or collapsed. |
| `DashboardContainer.Dashboard.RebindCards` | Billed-app-FR-Front-main/src/containers/Dashboard.js:88-92 | Every listed bill's card ends with exactly one edit handler. Other cards keep theirs. |
| `DashboardContainer.Dashboard.HandleEditTicket` | Billed-app-FR-Front-main/src/containers/Dashboard.js:28-51 | The fields follow `EditTicketStep`, showing the bill's form or the placeholder. The card handlers are unchanged. |
| `DashboardContainer.Dashboard.UpdateBill` | Billed-app-FR-Front-main/src/containers/Dashboard.js:120-128 | With a store: one update keyed by the bill's own id. Without one: no request. |
| `DashboardContainer.Dashboard.HandleAcceptSubmit` | Billed-app-FR-Front-main/src/containers/Dashboard.js:53-61 | The update of the bill marked `accepted` with the comment, then navigation to the dashboard. |
| `DashboardContainer.Dashboard.HandleRefuseSubmit` | Billed-app-FR-Front-main/src/containers/Dashboard.js:63-71 | The update of the bill marked `refused` with the comment, then navigation to the dashboard. |

## Left out

- HTML markup, CSS changes, `DashboardFormUI`, `BigBilledIcon`, the card template and `formatDate`. A card is the `CardView` value and a rendered list is a sequence of them, so `join('')` becomes sequence concatenation. The view changes of each click are one log entry.
- `HandleEditTicket`: the recolouring of every other card (`bills.forEach` setting backgrounds) is view output and is not modelled. That is why it takes no `bills` argument.
- `HandleShowTickets`: handlers are counted by card id for every listed bill, whether or not its card is in the page. jQuery's no-op on an absent element and the DOM's one-element-per-id lookup are not modelled.
- The triage form's own button handlers (`#icon-eye-d`, accept, refuse) are not modelled. `handleClickIconEye` is not modelled either: it is modal display plus floating-point width arithmetic.
- `getBillsAllUsers` and promise scheduling are not modelled. Store calls are log entries, and their resolutions are explicit later method calls. The dashboard's update resolution changes no state and is not modelled.
- `JSON.stringify` is not modelled: an update request carries the record value itself.
- The session and `localStorage` reads (including a missing user, which would throw) are not modelled. The email is an argument, and the contents of the reserved test-account list are a parameter.
- JavaScript `parseInt` semantics (whitespace, sign, radix, partial prefixes) are not modelled. It is a function argument.
- `Logout`, the router and the route table are not modelled. Routes are opaque symbols.
- The file's bytes and the `FormData` payload are not modelled. A file is an opaque handle, and the request records the handle and the email.
- An absent `bills` argument is not modelled. `handleShowTickets` takes a list, since `bills.forEach` would throw on an absent one.
- The constructors' event-listener wiring is not modelled.
