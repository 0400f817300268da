/** The admin dashboard container: the bucket and ticket toggles driven by
    one shared click counter, the accept/refuse decisions, and the store
    update they request. */
module DashboardContainer {
  import opened BillModel
  import opened BillUtils

  /** The container's toggle fields. `counter` is undefined (None) until the
      first click; both the bucket arrows and the bill cards advance this
      same counter. The id is a bill's id, None where the bill has none. */
  datatype Triage = Triage(counter: Option<nat>, index: Option<int>, id: Option<string>)

  /** handleShowTickets on the toggle fields: the counter restarts at 0 when
      it is undefined or another bucket is clicked, the bucket index becomes
      the clicked one, and the bucket is expanded (r.1) iff the counter is
      even before being incremented. */
  function ShowTicketsStep(t: Triage, index: int): (r: (Triage, bool))
    ensures r.0.index == Some(index) && r.0.id == t.id
    ensures t.counter.None? || t.index != Some(index) ==> r.1 && r.0.counter == Some(1)
    ensures t.counter.Some? && t.index == Some(index) ==>
      r.0.counter == Some(t.counter.value + 1) && (r.1 <==> t.counter.value % 2 == 0)
  {
    var counter := if t.counter.None? || t.index != Some(index) then 0 else t.counter.value;
    // Whatever the previous index, the clicked index becomes the current one.
    (Triage(Some(counter + 1), Some(index), t.id), counter % 2 == 0)
  }

  /** handleEditTicket on the toggle fields: the counter restarts at 0 when it
      is undefined or another bill is clicked, the id becomes the clicked
      bill's, and the triage form is shown (r.1) iff the counter is even
      before being incremented; otherwise the placeholder is shown. */
  function EditTicketStep(t: Triage, billId: Option<string>): (r: (Triage, bool))
    ensures r.0.id == billId && r.0.index == t.index
    ensures t.counter.None? || t.id != billId ==> r.1 && r.0.counter == Some(1)
    ensures t.counter.Some? && t.id == billId ==>
      r.0.counter == Some(t.counter.value + 1) && (r.1 <==> t.counter.value % 2 == 0)
  {
    var counter := if t.counter.None? || t.id != billId then 0 else t.counter.value;
    (Triage(Some(counter + 1), t.index, billId), counter % 2 == 0)
  }

  /** What the counter says of a bucket: it is shown expanded when it is the
      current bucket and the counter is odd (it was expanded on an even count). */
  predicate BucketOpen(t: Triage, index: int)
  {
    t.index == Some(index) && t.counter.Some? && t.counter.value % 2 == 1
  }

  /** What the counter says of a bill: its form is open when it is the
      current bill and the counter is odd. */
  predicate TicketOpen(t: Triage, billId: Option<string>)
  {
    t.id == billId && t.counter.Some? && t.counter.value % 2 == 1
  }

  /** A bucket click toggles that bucket: it expands exactly when the counter
      did not count it open, and afterwards the counter counts it open exactly
      when it was expanded. */
  lemma ShowTicketsToggles(t: Triage, index: int)
    ensures var (t', expanded) := ShowTicketsStep(t, index);
      expanded == !BucketOpen(t, index) && BucketOpen(t', index) == expanded
  {
  }

  /** Two clicks on the same bucket return it to where it was: the first
      expands the bucket and the second collapses it, or the reverse, and the
      counter advances by two. */
  lemma {:induction false} ShowTicketsTwice(t: Triage, index: int)
    ensures var (t1, e1) := ShowTicketsStep(t, index);
      var (t2, e2) := ShowTicketsStep(t1, index);
      e1 != e2 && BucketOpen(t2, index) == BucketOpen(t, index) &&
      t2.counter.Some? && t2.counter.value == t1.counter.value + 1
  {
    var (t1, e1) := ShowTicketsStep(t, index);
    var (t2, e2) := ShowTicketsStep(t1, index);
    assert t1.counter.Some? && t1.index == Some(index);
    assert e2 <==> t1.counter.value % 2 == 0;
    ShowTicketsToggles(t, index);
    ShowTicketsToggles(t1, index);
  }

  /** A card click toggles that bill's form the same way. */
  lemma EditTicketToggles(t: Triage, billId: Option<string>)
    ensures var (t', shown) := EditTicketStep(t, billId);
      shown == !TicketOpen(t, billId) && TicketOpen(t', billId) == shown
  {
  }

  /** Clicking the same card twice shows the form and then the placeholder,
      or the reverse. */
  lemma {:induction false} EditTicketTwice(t: Triage, billId: Option<string>)
    ensures var (t1, s1) := EditTicketStep(t, billId);
      var (t2, s2) := EditTicketStep(t1, billId);
      s1 != s2 && TicketOpen(t2, billId) == TicketOpen(t, billId)
  {
    EditTicketToggles(t, billId);
    EditTicketToggles(EditTicketStep(t, billId).0, billId);
  }

  /** Because the counter is shared, a card click on the current bill flips
      the parity the current bucket is judged by, while no bucket was clicked. */
  lemma EditTicketFlipsBucket(t: Triage, billId: Option<string>, index: int)
    requires t.counter.Some? && t.id == billId && t.index == Some(index)
    ensures BucketOpen(EditTicketStep(t, billId).0, index) == !BucketOpen(t, index)
  {
  }

  /** A click sequence that shows the shared counter at work: expand bucket
      1, open a bill's form, close it with a second click on the same card,
      then click bucket 1 again. The last click expands the bucket a second
      time instead of collapsing it. */
  lemma {:induction false} SharedCounterReexpands(billId: Option<string>)
    requires billId.Some?
    ensures var (t1, e1) := ShowTicketsStep(Triage(None, None, None), 1);
      var (t2, s2) := EditTicketStep(t1, billId);
      var (t3, s3) := EditTicketStep(t2, billId);
      var (t4, e4) := ShowTicketsStep(t3, 1);
      e1 && s2 && !s3 && e4
  {
    var (t1, e1) := ShowTicketsStep(Triage(None, None, None), 1);
    assert t1 == Triage(Some(1), Some(1), None);
    var (t2, s2) := EditTicketStep(t1, billId);
    assert t2.counter == Some(1) && t2.index == Some(1);
    var (t3, s3) := EditTicketStep(t2, billId);
    assert t3.counter == Some(2) && t3.index == Some(1);
  }

  /** The bill sent to the store by an accept or refuse decision: the given
      bill with its status and admin comment replaced, everything else,
      including the owner's email, kept. */
  function Decide(bill: Bill, status: string, comment: Option<string>): (r: Bill)
    ensures r.status == status && r.commentAdmin == comment
    ensures r.(status := bill.status, commentAdmin := bill.commentAdmin) == bill
  {
    bill.(status := status, commentAdmin := comment)
  }

  /** Listed after any bills, an accepted bill is added to bucket 2 and to
      no other bucket, unless the browser hides its owner's bills. */
  lemma AcceptedBillMovesBucket(bill: Bill, comment: Option<string>, s: seq<Bill>, env: Env, k: int)
    requires 1 <= k <= 3
    ensures var d := Decide(bill, ACCEPTED, comment);
      FilterBills(Some(s + [d]), GetStatus(k), env) ==
      FilterBills(Some(s), GetStatus(k), env) + (if k == 2 && Visible(bill, env) then [d] else [])
  {
    FilterAppendOne(s, Decide(bill, ACCEPTED, comment), GetStatus(k), env);
  }

  /** Listed after any bills, a refused bill is added to bucket 3 and to no
      other bucket, unless the browser hides its owner's bills. */
  lemma RefusedBillMovesBucket(bill: Bill, comment: Option<string>, s: seq<Bill>, env: Env, k: int)
    requires 1 <= k <= 3
    ensures var d := Decide(bill, REFUSED, comment);
      FilterBills(Some(s + [d]), GetStatus(k), env) ==
      FilterBills(Some(s), GetStatus(k), env) + (if k == 3 && Visible(bill, env) then [d] else [])
  {
    FilterAppendOne(s, Decide(bill, REFUSED, comment), GetStatus(k), env);
  }

  /** The dashboard's observable effects, in order: view output, store
      requests and navigation requests. */
  datatype Effect =
    | BucketShown(index: int, cards: seq<CardView>)  // arrow at 0deg, container filled with the cards
    | BucketHidden(index: int)                       // arrow at 90deg, container emptied
    | TicketShown(bill: Bill)                        // card highlighted, triage form for `bill`
    | TicketHidden(billId: Option<string>)           // card unhighlighted, placeholder icon
    | UpdateRequested(data: Bill, selector: Option<string>)
    | Navigated(route: Route)

  /** The ids of the cards of a bill list. */
  function CardIds(bills: seq<Bill>): set<Option<string>>
  {
    set b | b in bills :: b.id
  }

  class Dashboard {
    const store: bool
    const env: Env
    var counter: Option<nat>
    var index: Option<int>
    var id: Option<string>
    /** The number of edit-ticket click handlers bound to each card, by card id. */
    var handlers: map<Option<string>, nat>
    ghost var log: seq<Effect>

    function State(): Triage
      reads this
    {
      Triage(counter, index, id)
    }

    /** A new dashboard: counter, index and id undefined, no handler bound. */
    constructor (store: bool, env: Env)
      ensures this.store == store && this.env == env
      ensures State() == Triage(None, None, None)
      ensures handlers == map[] && log == []
    {
      this.store := store;
      this.env := env;
      counter, index, id := None, None, None;
      handlers := map[];
      log := [];
    }

    /** handleShowTickets: toggles bucket `index` per ShowTicketsStep,
      rendering either the cards of the bucket's bills or nothing, then binds
      exactly one edit-ticket handler to the card of every bill, and returns
      the bills it was given. */
    method HandleShowTickets(bills: seq<Bill>, index: int) returns (r: seq<Bill>)
      modifies this`counter, this`index, this`handlers, this`log
      ensures r == bills
      ensures State() == ShowTicketsStep(old(State()), index).0
      ensures log == old(log) + [
        if ShowTicketsStep(old(State()), index).1
        then BucketShown(index, Cards(Some(FilterBills(Some(bills), GetStatus(index), env))))
        else BucketHidden(index)]
      ensures forall k :: k in CardIds(bills) ==> k in handlers && handlers[k] == 1
      ensures forall k :: k !in CardIds(bills) ==>
        (k in handlers <==> k in old(handlers)) && (k in handlers ==> handlers[k] == old(handlers)[k])
    {
      ToggleBucket(bills, index);
      RebindCards(bills);
      r := bills;
    }

    /** The toggle part of handleShowTickets: the fields advance per
      ShowTicketsStep and the bucket is rendered expanded with its cards or
      collapsed. */
    method ToggleBucket(bills: seq<Bill>, index: int)
      modifies this`counter, this`index, this`log
      ensures State() == ShowTicketsStep(old(State()), index).0
      ensures log == old(log) + [
        if ShowTicketsStep(old(State()), index).1
        then BucketShown(index, Cards(Some(FilterBills(Some(bills), GetStatus(index), env))))
        else BucketHidden(index)]
    {
      var cards := Cards(Some(FilterBills(Some(bills), GetStatus(index), env)));
      if counter.None? || this.index != Some(index) {
        counter := Some(0);
      }
      if this.index.None? || this.index != Some(index) {
        this.index := Some(index);
      }
      if counter.value % 2 == 0 {
        log := log + [BucketShown(index, cards)];
        counter := Some(counter.value + 1);
      } else {
        log := log + [BucketHidden(index)];
        counter := Some(counter.value + 1);
      }
    }

    /** The `bills.forEach` of handleShowTickets: on each bill's card one
      handler is added, then all are removed and one is added again, so
      every card ends with exactly one handler; other cards keep theirs. */
    method RebindCards(bills: seq<Bill>)
      modifies this`handlers
      ensures forall k :: k in CardIds(bills) ==> k in handlers && handlers[k] == 1
      ensures forall k :: k !in CardIds(bills) ==>
        (k in handlers <==> k in old(handlers)) && (k in handlers ==> handlers[k] == old(handlers)[k])
    {
      var j := 0;
      while j < |bills|
        invariant 0 <= j <= |bills|
        invariant forall k :: k in CardIds(bills[..j]) ==> k in handlers && handlers[k] == 1
        invariant forall k :: k !in CardIds(bills[..j]) ==>
          (k in handlers <==> k in old(handlers)) && (k in handlers ==> handlers[k] == old(handlers)[k])
      {
        var cardId := bills[j].id;
        handlers := handlers[cardId := (if cardId in handlers then handlers[cardId] else 0) + 1];
        handlers := handlers[cardId := 0];
        handlers := handlers[cardId := 1];
        assert CardIds(bills[..j + 1]) == CardIds(bills[..j]) + {cardId} by {
          assert bills[..j + 1] == bills[..j] + [bills[j]];
        }
        j := j + 1;
      }
      assert bills[..j] == bills;
    }

    /** handleEditTicket: toggles the clicked bill's form per EditTicketStep,
      showing the triage form for it or the placeholder. */
    method HandleEditTicket(bill: Bill)
      modifies this`counter, this`id, this`log
      ensures State() == EditTicketStep(old(State()), bill.id).0
      ensures log == old(log) + [
        if EditTicketStep(old(State()), bill.id).1 then TicketShown(bill) else TicketHidden(bill.id)]
      ensures handlers == old(handlers)
    {
      if counter.None? || id != bill.id {
        counter := Some(0);
      }
      if id.None? || id != bill.id {
        id := bill.id;
      }
      if counter.value % 2 == 0 {
        log := log + [TicketShown(bill)];
        counter := Some(counter.value + 1);
      } else {
        log := log + [TicketHidden(bill.id)];
        counter := Some(counter.value + 1);
      }
    }

    /** updateBill: sends the bill to the store's update, keyed by its id;
      without a store nothing is requested. */
    method UpdateBill(bill: Bill)
      modifies this`log
      ensures log == old(log) + (if store then [UpdateRequested(bill, bill.id)] else [])
    {
      if store {
        log := log + [UpdateRequested(bill, bill.id)];
      }
    }

    /** handleAcceptSubmit: sends the bill marked accepted with the current
      comment to the store, then asks to navigate to the dashboard. */
    method HandleAcceptSubmit(bill: Bill, comment: Option<string>)
      modifies this`log
      ensures var d := Decide(bill, ACCEPTED, comment);
        log == old(log) + (if store then [UpdateRequested(d, d.id)] else []) + [Navigated(DashboardRoute)]
    {
      var newBill := Decide(bill, ACCEPTED, comment);
      UpdateBill(newBill);
      log := log + [Navigated(DashboardRoute)];
    }

    /** handleRefuseSubmit: as HandleAcceptSubmit, with the bill marked refused. */
    method HandleRefuseSubmit(bill: Bill, comment: Option<string>)
      modifies this`log
      ensures var d := Decide(bill, REFUSED, comment);
        log == old(log) + (if store then [UpdateRequested(d, d.id)] else []) + [Navigated(DashboardRoute)]
    {
      var newBill := Decide(bill, REFUSED, comment);
      UpdateBill(newBill);
      log := log + [Navigated(DashboardRoute)];
    }
  }
}
