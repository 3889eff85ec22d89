/** Bookings: their money totals, creation in `Draft`, and reconciliation of
    status and payments against the payment provider's order
    (common/src/booking.rs). */
module Bookings {
  import opened Wrappers
  import opened Tickets

  /** Store-assigned record identity. */
  type BookingId = nat
  type PersonId = string
  type EventId = string

  datatype Status = Draft | Accepted | Paid | PartiallyPaid | Cancelled

  datatype Payment =
    | Cash(amount: Decimal, to: string)
    | Card(amount: Decimal, reference: string)
    | BankTransfer(amount: Decimal, reference: string)

  /** A booking as the store holds it.  Contact and event are kept by id;
      the join that hydrates them is not part of this model. */
  datatype Booking = Booking(
    id: BookingId,
    tickets: seq<Ticket>,
    status: Status,
    payments: seq<Payment>,
    squareOrder: Option<string>,
    contact: PersonId,
    event: EventId)

  // ---------------------------------------------------------------------
  // Money

  /** `Decimal::new(units, 2)`: an integer count of hundredths. */
  function Hundredths(units: int): (d: Decimal)
    ensures d * 100.0 == units as real
  {
    units as real / 100.0
  }

  /** `Payment::amount`: the same for every kind of payment. */
  function Amount(p: Payment): (a: Decimal)
    ensures a == p.amount
  {
    match p
    case Cash(amount, _) => amount
    case Card(amount, _) => amount
    case BankTransfer(amount, _) => amount
  }

  /** The left fold `payments.fold(0, |a, p| a + p.amount())`. */
  function SumAmounts(payments: seq<Payment>): (total: Decimal)
    ensures (forall i :: 0 <= i < |payments| ==> Amount(payments[i]) >= 0.0) ==> total >= 0.0
  {
    if payments == [] then 0.0
    else SumAmounts(payments[..|payments| - 1]) + Amount(payments[|payments| - 1])
  }

  /** The left fold `tickets.fold(0, |a, t| a + t.ticket_type.price)`. */
  function SumPrices(tickets: seq<Ticket>): (total: Decimal)
    ensures (forall i :: 0 <= i < |tickets| ==> tickets[i].ticketType.price >= 0.0) ==> total >= 0.0
  {
    if tickets == [] then 0.0
    else SumPrices(tickets[..|tickets| - 1]) + tickets[|tickets| - 1].ticketType.price
  }

  /** `Booking::total_paid`. */
  function TotalPaid(b: Booking): (total: Decimal)
    ensures (forall i :: 0 <= i < |b.payments| ==> b.payments[i].amount >= 0.0) ==> total >= 0.0
    ensures b.payments == [] ==> total == 0.0
  {
    SumAmounts(b.payments)
  }

  /** `Booking::total_ticket_value`. */
  function TotalTicketValue(b: Booking): (total: Decimal)
    ensures (forall i :: 0 <= i < |b.tickets| ==> b.tickets[i].ticketType.price >= 0.0) ==> total >= 0.0
    ensures b.tickets == [] ==> total == 0.0
  {
    SumPrices(b.tickets)
  }

  /** The payment total splits over any two runs of payments. */
  lemma {:induction false} SumAmountsConcat(a: seq<Payment>, b: seq<Payment>)
    ensures SumAmounts(a + b) == SumAmounts(a) + SumAmounts(b)
  {
    if b == [] {
      assert a + b == a;
    } else {
      var n := |b| - 1;
      SumAmountsConcat(a, b[..n]);
      assert (a + b)[..|a + b| - 1] == a + b[..n];
      assert (a + b)[|a + b| - 1] == b[n];
    }
  }

  /** The ticket value splits over any two runs of tickets. */
  lemma {:induction false} SumPricesConcat(a: seq<Ticket>, b: seq<Ticket>)
    ensures SumPrices(a + b) == SumPrices(a) + SumPrices(b)
  {
    if b == [] {
      assert a + b == a;
    } else {
      var n := |b| - 1;
      SumPricesConcat(a, b[..n]);
      assert (a + b)[..|a + b| - 1] == a + b[..n];
      assert (a + b)[|a + b| - 1] == b[n];
    }
  }

  /** Decimal sums are exact: tickets priced 0.10, 0.20 and 0.30 are worth
      exactly 0.60. */
  lemma ExactTicketValue(t: Ticket)
    ensures var ts := [t.(ticketType := t.ticketType.(price := Hundredths(10))),
                       t.(ticketType := t.ticketType.(price := Hundredths(20))),
                       t.(ticketType := t.ticketType.(price := Hundredths(30)))];
            SumPrices(ts) == Hundredths(60)
  {
    var ts := [t.(ticketType := t.ticketType.(price := Hundredths(10))),
               t.(ticketType := t.ticketType.(price := Hundredths(20))),
               t.(ticketType := t.ticketType.(price := Hundredths(30)))];
    assert ts[..1][..0] == [];
    assert SumPrices(ts[..1]) == Hundredths(10);
    assert ts[..2][..1] == ts[..1];
    assert SumPrices(ts[..2]) == Hundredths(30);
    assert ts[..|ts| - 1] == ts[..2];
  }

  // ---------------------------------------------------------------------
  // Creating a booking

  /** The record `create` stores: exactly the given tickets, in `Draft`, with
      no payments and no provider order. */
  function NewBooking(id: BookingId, event: EventId, contact: PersonId, tickets: seq<Ticket>): (b: Booking)
    ensures b.id == id && b.event == event && b.contact == contact && b.tickets == tickets
    ensures b.status == Draft && b.payments == [] && b.squareOrder == None
  {
    Booking(id, tickets, Draft, [], None, contact, event)
  }

  /** A new booking has paid nothing and is worth its tickets. */
  lemma NewBookingTotals(id: BookingId, event: EventId, contact: PersonId, tickets: seq<Ticket>)
    ensures TotalPaid(NewBooking(id, event, contact, tickets)) == 0.0
    ensures TotalTicketValue(NewBooking(id, event, contact, tickets)) == SumPrices(tickets)
  {
  }

  // ---------------------------------------------------------------------
  // Reconciling with the payment provider

  datatype Money = Money(amount: int, currency: string)

  /** A tender on the provider's order: an amount in minor units and the
      provider's payment id. */
  datatype Tender = Tender(amountMoney: Money, paymentId: string)

  /** The part of the provider's order that reconciliation reads. */
  datatype Order = Order(tenders: Option<seq<Tender>>, totalMoney: Money)

  /** What asking the provider for an order can give: the call failed to
      go through, it came back with a failure status and a body, its body
      could not be decoded, or the order itself. */
  datatype OrderResponse =
    | SendFailed(message: string)
    | FailureStatus(body: string)
    | Undecodable(message: string)
    | Retrieved(order: Order)

  datatype Fail =
    | NotFound(id: BookingId)
    | SquareApi(body: string)
    | NoSquareOrder
    // Not a variant of the source's `Fail`: there the send, body and decode
    // errors pass through `?` as a plain `ServerFnError`.
    | Transport(message: string)

  /** One tender as a card payment. */
  function CardPayment(t: Tender): (p: Payment)
    ensures p.Card? && p.amount == Hundredths(t.amountMoney.amount) && p.reference == t.paymentId
  {
    Card(Hundredths(t.amountMoney.amount), t.paymentId)
  }

  /** The tenders, in order, as card payments (`map` over the list). */
  function CardPayments(tenders: seq<Tender>): (ps: seq<Payment>)
    ensures |ps| == |tenders|
    ensures forall i :: 0 <= i < |ps| ==> ps[i] == CardPayment(tenders[i])
  {
    if tenders == [] then [] else [CardPayment(tenders[0])] + CardPayments(tenders[1..])
  }

  /** The tenders of an order as payments; no tenders give no payments
      (`unwrap_or_default`). */
  function TenderPayments(tenders: Option<seq<Tender>>): (ps: seq<Payment>)
    ensures tenders.None? ==> ps == []
    ensures tenders.Some? ==> |ps| == |tenders.value|
                              && forall i :: 0 <= i < |ps| ==> ps[i] == CardPayment(tenders.value[i])
  {
    match tenders
    case None => []
    case Some(ts) => CardPayments(ts)
  }

  /** The status rule: paid in full, paid in part, or unchanged, and never a
      change to a cancelled booking. */
  function NewStatus(current: Status, totalPaid: Decimal, orderTotal: Decimal): (s: Status)
    ensures current == Cancelled ==> s == Cancelled
    ensures s == current || s == Paid || s == PartiallyPaid
    ensures s == PartiallyPaid && current != PartiallyPaid ==> 0.0 < totalPaid < orderTotal
    ensures s == Paid && current != Paid ==> orderTotal <= totalPaid
  {
    if totalPaid >= orderTotal && current != Cancelled then Paid
    else if totalPaid > 0.0 && current != Cancelled then PartiallyPaid
    else current
  }

  /** What reconciliation does to a booking: the payments replaced wholesale
      by the order's tenders, and the status derived from their total
      against the order's total. */
  function Reconciled(b: Booking, order: Order): (r: Booking)
    ensures r.payments == TenderPayments(order.tenders)
    ensures r.status == NewStatus(b.status, SumAmounts(r.payments), Hundredths(order.totalMoney.amount))
    ensures r == b.(payments := r.payments, status := r.status)
  {
    var payments := TenderPayments(order.tenders);
    b.(payments := payments,
       status := NewStatus(b.status, SumAmounts(payments), Hundredths(order.totalMoney.amount)))
  }

  /** The status rule case by case: `Paid` exactly when the total reaches the
      order total and the booking is not cancelled; `PartiallyPaid` exactly
      when it falls short but is positive and the booking is not cancelled;
      otherwise the status stays. */
  lemma NewStatusCases(current: Status, totalPaid: Decimal, orderTotal: Decimal)
    ensures var s := NewStatus(current, totalPaid, orderTotal);
            && (current != Cancelled && totalPaid >= orderTotal ==> s == Paid)
            && (current != Cancelled && totalPaid < orderTotal && totalPaid > 0.0 ==> s == PartiallyPaid)
            && (current == Cancelled || (totalPaid < orderTotal && totalPaid <= 0.0) ==> s == current)
            && (s == current || s == Paid || s == PartiallyPaid)
  {
  }

  /** A cancelled booking stays cancelled whatever the tenders. */
  lemma CancelledIsSticky(b: Booking, order: Order)
    requires b.status == Cancelled
    ensures Reconciled(b, order).status == Cancelled
  {
  }

  /** Reconciling twice with the same provider order gives the same booking
      as reconciling once. */
  lemma ReconcileIdempotent(b: Booking, order: Order)
    ensures Reconciled(Reconciled(b, order), order) == Reconciled(b, order)
  {
  }

  /** Payments are replaced, not appended: the booking's earlier payments
      have no bearing on the payments or the status afterwards. */
  lemma ReconcileIgnoresEarlierPayments(b: Booking, earlier: seq<Payment>, order: Order)
    ensures Reconciled(b.(payments := earlier), order) == Reconciled(b, order)
  {
  }

  /** A partially paid booking whose tenders still fall short stays partially
      paid, with the same payments, however often it is reconciled. */
  lemma PartiallyPaidStaysPartiallyPaid(b: Booking, order: Order)
    requires b.status == PartiallyPaid
    requires var total := SumAmounts(TenderPayments(order.tenders));
             total < Hundredths(order.totalMoney.amount)
    ensures Reconciled(b, order).status == PartiallyPaid
    ensures Reconciled(Reconciled(b, order), order) == Reconciled(b, order)
  {
  }

  /** The tender amounts added up, in minor units. */
  function SumTenders(tenders: seq<Tender>): int {
    if tenders == [] then 0
    else SumTenders(tenders[..|tenders| - 1]) + tenders[|tenders| - 1].amountMoney.amount
  }

  /** After reconciliation the booking's `total_paid` is the sum of the
      tenders, each in hundredths. */
  lemma {:induction false} ReconciledTotalPaid(tenders: seq<Tender>)
    ensures SumAmounts(CardPayments(tenders)) * 100.0 == SumTenders(tenders) as real
  {
    if tenders != [] {
      var n := |tenders| - 1;
      ReconciledTotalPaid(tenders[..n]);
      var ps := CardPayments(tenders);
      assert ps[..n] == CardPayments(tenders[..n]);
      assert ps[..|ps| - 1] == ps[..n];
    }
  }

  // ---------------------------------------------------------------------
  // The store

  /** The bookings table, with `create` and `check_payment` as the two
      operations that change it. */
  class BookingStore {
    var records: map<BookingId, Booking>
    var nextId: BookingId

    ghost predicate Valid()
      reads this
    {
      forall id :: id in records ==> id < nextId && records[id].id == id
    }

    constructor ()
      ensures Valid() && records == map[]
    {
      records := map[];
      nextId := 0;
    }

    /** `get`: the stored booking, or `NotFound`. */
    method Get(id: BookingId) returns (r: Result<Booking, Fail>)
      ensures id in records ==> r == Success(records[id])
      ensures id !in records ==> r == Failure(NotFound(id))
    {
      if id in records {
        r := Success(records[id]);
      } else {
        r := Failure(NotFound(id));
      }
    }

    /** `create`: stores a new draft booking under a fresh id and returns it;
        no other record changes. */
    method Create(event: EventId, contact: PersonId, tickets: seq<Ticket>) returns (r: Result<Booking, Fail>)
      requires Valid()
      modifies this
      ensures Valid()
      ensures old(nextId) !in old(records)
      ensures records == old(records)[old(nextId) := NewBooking(old(nextId), event, contact, tickets)]
      ensures r == Success(NewBooking(old(nextId), event, contact, tickets))
    {
      var b := NewBooking(nextId, event, contact, tickets);
      records := records[nextId := b];
      nextId := nextId + 1;
      r := Get(b.id);
    }

    /** `check_payment`: looks the booking up, asks the provider about its
        order, and replaces the booking's payments and status.  Every failure
        leaves the store as it was. */
    method CheckPayment(id: BookingId, provider: string -> OrderResponse) returns (r: Result<Booking, Fail>)
      requires Valid()
      modifies this
      ensures Valid() && nextId == old(nextId)
      ensures id !in old(records) ==> r == Failure(NotFound(id)) && records == old(records)
      ensures id in old(records) && old(records)[id].squareOrder.None? ==>
                r == Failure(NoSquareOrder) && records == old(records)
      ensures id in old(records) && old(records)[id].squareOrder.Some? ==>
                match provider(old(records)[id].squareOrder.value)
                case SendFailed(message) => r == Failure(Transport(message)) && records == old(records)
                case FailureStatus(body) => r == Failure(SquareApi(body)) && records == old(records)
                case Undecodable(message) => r == Failure(Transport(message)) && records == old(records)
                case Retrieved(order) =>
                  && records == old(records)[id := Reconciled(old(records)[id], order)]
                  && r == Success(Reconciled(old(records)[id], order))
    {
      var found := Get(id);
      if found.Failure? {
        return found;
      }
      var booking := found.value;
      if booking.squareOrder.None? {
        return Failure(NoSquareOrder);
      }
      var response := provider(booking.squareOrder.value);
      match response {
        case SendFailed(message) =>
          return Failure(Transport(message));
        case FailureStatus(body) =>
          return Failure(SquareApi(body));
        case Undecodable(message) =>
          return Failure(Transport(message));
        case Retrieved(order) =>
          var payments := TenderPayments(order.tenders);
          var totalPaid := SumAmounts(payments);
          var orderTotal := Hundredths(order.totalMoney.amount);
          var status := NewStatus(booking.status, totalPaid, orderTotal);
          records := records[id := booking.(payments := payments, status := status)];
          r := Get(id);
      }
    }
  }
}
