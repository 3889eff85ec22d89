# Booking composition and reconciliation, modelled in Dafny

This project models the core of an event-booking application: the part
that decides which capacity-limited slot each ticket of a booking being
composed may go into, the keyed list that gives each draft ticket its own
identity, and the server-side rules for a booking's money totals, its
creation in `Draft`, and its reconciliation against the payment provider's
order.

Modules, one per source file:

- `Tickets` (`ticket.dfy`): `TicketType`, `Ticket` and `NewTicket`, the
  defaulting constructor.
- `Events` (`event.dfy`): `Slot`, `Slots`, `SlotDetail`, `Event`,
  `DbEvent`. It has the ticket-type list (`TicketTypes`) and the
  stored-to-public conversion (`EventFromDb`). `TicketTypes` is a function, so
  it cannot change the event.
- `ReactiveLists` (`reactive_list.dfy`): the insertion-ordered keyed list.
  Its spec functions are `Values`, `Keyed`, `IndexOf`, `Removed`,
  `WithoutKey` and `Upserted`. The class `ReactiveList<T>` holds the entries
  and a fresh-key counter, and its `Push`, `Remove` and `Insert` methods update
  them in place.
- `SlotState` (`slot_state.dfy`): the five-way slot state, `CanTake`,
  `IsInSlot` and `Description`, plus the evaluator `StateForTicket` and the
  lemmas about it.
- `Bookings` (`booking.dfy`): `Status`, `Payment`, `Booking`, the money
  folds, `NewBooking` and the reconciliation rule (`Reconciled`, `NewStatus`).
  `BookingStore` is the bookings table as a map, with the `Create` and
  `CheckPayment` methods that change it.
- `Wrappers` (`wrappers.dfy`): `Option` and `Result`.

Modelling choices:

- Money (`rust_decimal::Decimal`) is a Dafny `real`, which is exact.
  `Decimal::new(x, 2)` is `Hundredths(x)`, that is `x / 100`.
- The identity of a ticket cell is its key in the list, an ordinary number.
  The source instead compares `RwSignal` handles, and `tracked_insert`
  replaces a key's handle by a new one (see "Left out"). A fresh key comes from the
  list's counter where the source calls `Uuid::new_v4`. `Insert` with a key
  the list has never seen moves the counter past that key, so the keys the
  list hands out stay fresh.
- The evaluator reads the draft list as its sequence of `(key, ticket)`
  pairs, which is what `ReactiveList.Iter` yields. The optional "ticket in
  question" is an optional key.
- The evaluator is a function, so evaluating twice with the same inputs
  always gives the same state.
- The payment provider is a parameter of `CheckPayment`: a function from the
  stored order reference to one of four responses. These are a failed send,
  a failure status with its body, an undecodable body, or the order (its
  optional tenders and its total).
- A status is derived against the provider's order total, as the code does
  (common/src/booking.rs:363-365), not against the booking's ticket value.

Behaviour of the source kept as written:

- For `SomeLeft`, `can_take` is `buying <= available`. A slot can therefore
  show places left and still refuse a new ticket. Capacity 10 with six draft
  tickets in the slot shows "4 available." but cannot be taken by a seventh
  ticket (`SomeLeftCanRefuse`).
- The `NotFound` description is "Error! slot {name} found." (without "not").

## Model

| member | source | states |
|---|---|---|
| `Tickets.NewTicket` | common/src/ticket.rs:14-22 | keeps the given ticket type, both dietary flags false, empty requirements text, no slot |
| `Events.TicketTypes` | common/src/event.rs:79-84 | length is one plus the number of additional types; first is the default type; the rest are the additional types in order |
| `Events.TicketTypesMembership` | common/src/event.rs:79-84 | a type is offered iff it is the default or one of the additional types |
| `Events.EventFromDb` | common/src/event.rs:61-73 | copies id, name, tagline, both ticket-type fields, slots, start and end unchanged |
| `Events.EventFromDbIgnoresSlotsDescription` | common/src/event.rs:48-73 | stored events that differ only in `slots_description` convert to the same event |
| `Events.EventFromDbInjective` | common/src/event.rs:61-73 | apart from `slots_description`, the conversion loses no field |
| `SlotState.IsInSlot` | frontend/src/slot_state.rs:18 | a state that is `InSlot` is always takeable |
| `SlotState.CanTake` | frontend/src/slot_state.rs:19-28 | `NoneLeft` and `NotFound` are never takeable; a takeable state is never described "Sold out." |
| `SlotState.Description` | frontend/src/slot_state.rs:30-41 | the description is empty exactly for `Unlimited` |
| `SlotState.FindSlot` | frontend/src/slot_state.rs:53 | `None` iff no detail has the name; otherwise the first detail with that name |
| `SlotState.Buying` | frontend/src/slot_state.rs:61-62 | the count of draft tickets in the slot is never more than the draft list's length (its exact value is `BuyingCountsInSlotIndices`) |
| `SlotState.AlreadyThere` | frontend/src/slot_state.rs:66-68 | holds only for a given ticket whose key is in the draft list |
| `SlotState.BuyingCountsInSlotIndices` | frontend/src/slot_state.rs:61-62 | `buying` equals the number of draft positions whose ticket's slot is the name |
| `SlotState.BuyingPositive` | frontend/src/slot_state.rs:61-62 | a draft ticket in the slot makes `buying` at least one |
| `SlotState.BuyingZero` | frontend/src/slot_state.rs:61-62 | no draft ticket in the slot makes `buying` zero |
| `SlotState.BuyingAppend` | frontend/src/slot_state.rs:61-62 | appending a ticket raises `buying` by one exactly when that ticket is in the slot |
| `SlotState.BuyingConcat` | frontend/src/slot_state.rs:61-62 | `buying` over two runs of the draft list is the sum over each |
| `SlotState.BuyingAfterRemove` | frontend/src/slot_state.rs:61-68 | removing a draft ticket lowers `buying` by one iff it was in the slot, and its key is then in no slot |
| `SlotState.StateForTicket` | frontend/src/slot_state.rs:44-74 | `NotFound(name)` iff no detail has the name; `Unlimited` iff the found slot has no capacity; otherwise `buying` is the draft count and `available = capacity - sold - buying`; `InSlot` iff the keyed ticket is among those in the slot; `SomeLeft` only for a ticket not there with `available > 0`; `NoneLeft` for one not there with `available <= 0`; never `InSlot` without a ticket; `InSlot` implies `buying >= 1` |
| `SlotState.CanTakeOfState` | frontend/src/slot_state.rs:19-28 | never takeable when missing; always when unlimited or already occupied; otherwise takeable iff `0 < available` and `buying <= available` |
| `SlotState.UnlimitedIsTakeableAndSilent` | frontend/src/slot_state.rs:57-59 | a slot without capacity gives `Unlimited`, takeable, with empty description |
| `SlotState.MissingSlotIsNotFound` | frontend/src/slot_state.rs:53-55 | a missing slot gives `NotFound(name)`, not takeable, described as an error naming the slot |
| `SlotState.OccupantMayStay` | frontend/src/slot_state.rs:66-73 | in a full slot the occupying ticket gets a takeable `InSlot`, while no ticket gets an untakeable `NoneLeft` |
| `SlotState.OccupancyIsByKey` | frontend/src/slot_state.rs:65-68 | a key that is not in the draft list never yields `InSlot`, whatever the tickets' values |
| `SlotState.EqualTicketsDistinctIdentities` | frontend/src/slot_state.rs:65-68 | two tickets equal in every field are told apart by their keys; a third key is not in the slot |
| `SlotState.NewTicketChangesNoState` | common/src/ticket.rs:14-21 | appending a fresh ticket to the draft list changes no slot's state for any ticket |
| `SlotState.ExactBoundary` | frontend/src/slot_state.rs:61-73 | capacity 5, sold 3 and two unplaced draft tickets in the slot give `NoneLeft{2}`, not takeable, "No more available." |
| `SlotState.SoldOut` | frontend/src/slot_state.rs:37 | capacity 2, sold 2 and nothing in the draft list give `NoneLeft{0}`, not takeable, "Sold out." |
| `SlotState.SomeLeftCanRefuse` | frontend/src/slot_state.rs:23 | capacity 10 with six draft tickets in the slot gives `SomeLeft{4, 6}`, described "4 available.", not takeable |
| `SlotState.SoldOutOnlyWhenNothingBought` | frontend/src/slot_state.rs:30-41 | the description is "Sold out." iff the state is `NoneLeft{buying: 0}` |
| `SlotState.DescriptionOfPlacesLeft` | frontend/src/slot_state.rs:30-41 | `SomeLeft` shows "{n} available."; `InSlot` shows "{n} more available." or "No more available." by the sign of `available`; a non-zero `NoneLeft` shows "No more available." |
| `ReactiveLists.Values` | happenings_frontend/src/reactive_list.rs:19 | same length as the list; each element is the value of the entry at that position |
| `ReactiveLists.Keyed` | happenings_frontend/src/reactive_list.rs:22-30 | same length and order as the sequence; keys distinct and fresh from the given start |
| `ReactiveLists.ValuesOfKeyed` | happenings_frontend/src/reactive_list.rs:19-30 | sequence to list to sequence is the identity, for any length |
| `ReactiveLists.Removed` | happenings_frontend/src/reactive_list.rs:56-60 | an absent key leaves the entries as they are; a present key makes them one shorter |
| `ReactiveLists.Upserted` | happenings_frontend/src/reactive_list.rs:62-66 | the result holds the pair of key and new value; its length stays for a present key and grows by one for a new key; no other key is gained or lost |
| `ReactiveLists.RemovedIsWithoutKey` | happenings_frontend/src/reactive_list.rs:56-60 | with distinct keys, shift-removal equals keeping every other entry in order |
| `ReactiveLists.RemoveAbsent` | happenings_frontend/src/reactive_list.rs:56-60 | removing an absent key leaves the entries unchanged |
| `ReactiveLists.RemovePresent` | happenings_frontend/src/reactive_list.rs:56-60 | removing a present key cuts out exactly its entry: one shorter, the rest in order, the key gone, the other keys kept and distinct |
| `ReactiveLists.UpsertPresent` | happenings_frontend/src/reactive_list.rs:62-66 | an existing key keeps its position and the length, and only that value changes |
| `ReactiveLists.UpsertAbsent` | happenings_frontend/src/reactive_list.rs:62-66 | a new key is appended at the end with its value; keys stay distinct |
| `ReactiveLists.ReactiveList.constructor` | happenings_frontend/src/reactive_list.rs:11 | a new list is empty |
| `ReactiveLists.ReactiveList.FromSeq` | happenings_frontend/src/reactive_list.rs:22-30 | one entry per element in order under distinct fresh keys; converting back gives the sequence |
| `ReactiveLists.ReactiveList.Iter` | happenings_frontend/src/reactive_list.rs:12 | yields every entry in insertion order, each key once, with the same values as the sequence conversion |
| `ReactiveLists.ReactiveList.ToSeq` | happenings_frontend/src/reactive_list.rs:19 | the current values in insertion order, keys dropped |
| `ReactiveLists.ReactiveList.Push` | happenings_frontend/src/reactive_list.rs:50-54 | appends exactly one entry under a key not previously present; earlier entries unchanged |
| `ReactiveLists.ReactiveList.Remove` | happenings_frontend/src/reactive_list.rs:56-60 | the entries become the shift-removal of the key, which is then absent; distinct keys kept |
| `ReactiveLists.ReactiveList.Insert` | happenings_frontend/src/reactive_list.rs:62-66 | the entries become the upsert of the key and value; later pushes stay fresh |
| `Bookings.Hundredths` | common/src/booking.rs:363 | the exact decimal with the given number of hundredths |
| `Bookings.Amount` | common/src/booking.rs:95-103 | every payment kind's amount is its amount field |
| `Bookings.SumAmounts` | common/src/booking.rs:27-31 | the fold of amounts from zero; never negative when no amount is |
| `Bookings.SumPrices` | common/src/booking.rs:33-37 | the fold of ticket prices from zero; never negative when no price is |
| `Bookings.TotalPaid` | common/src/booking.rs:27-31 | zero with no payments; never negative when no amount is |
| `Bookings.TotalTicketValue` | common/src/booking.rs:33-37 | zero with no tickets; never negative when no price is |
| `Bookings.SumAmountsConcat` | common/src/booking.rs:27-31 | the payment total is additive over concatenation |
| `Bookings.SumPricesConcat` | common/src/booking.rs:33-37 | the ticket value is additive over concatenation |
| `Bookings.ExactTicketValue` | common/src/booking.rs:33-37 | prices 0.10, 0.20 and 0.30 sum to exactly 0.60 |
| `Bookings.NewBooking` | common/src/booking.rs:218-225 | a created booking is `Draft` with no payments, no provider order, and exactly the given tickets, event and contact |
| `Bookings.NewBookingTotals` | common/src/booking.rs:218-225 | a created booking has paid zero and is worth the sum of its ticket prices |
| `Bookings.CardPayment` | common/src/booking.rs:353-356 | a tender becomes a card payment of its amount in hundredths, referenced by its payment id |
| `Bookings.CardPayments` | common/src/booking.rs:348-357 | one card payment per tender, in order |
| `Bookings.TenderPayments` | common/src/booking.rs:348-357 | absent tenders give no payments; present ones give one card payment each, in order |
| `Bookings.Reconciled` | common/src/booking.rs:348-380 | payments replaced by the tenders' payments and status derived from their total against the order total; nothing else changes |
| `Bookings.NewStatus` | common/src/booking.rs:365-371 | a cancelled booking stays cancelled; the result is the old status, `Paid` or `PartiallyPaid`; a change to `PartiallyPaid` needs a paid total above zero and short of the order total; a change to `Paid` needs a paid total that reaches the order total |
| `Bookings.NewStatusCases` | common/src/booking.rs:365-371 | `Paid` when not cancelled and the total reaches the order total; `PartiallyPaid` when not cancelled, short and positive; otherwise unchanged; never any other status |
| `Bookings.CancelledIsSticky` | common/src/booking.rs:365-371 | a cancelled booking stays cancelled whatever the tenders |
| `Bookings.ReconcileIdempotent` | common/src/booking.rs:373-380 | reconciling twice with the same order is reconciling once |
| `Bookings.ReconcileIgnoresEarlierPayments` | common/src/booking.rs:373-380 | earlier payments do not affect the result: they are replaced, not appended |
| `Bookings.PartiallyPaidStaysPartiallyPaid` | common/src/booking.rs:359-380 | a partially paid booking whose tenders still fall short stays partially paid with the same payments on every re-run |
| `Bookings.ReconciledTotalPaid` | common/src/booking.rs:348-361 | the paid total after reconciliation is the tenders' minor-unit sum divided by 100 |
| `Bookings.BookingStore.Get` | common/src/booking.rs:173-192 | the stored booking, or `NotFound` with the id |
| `Bookings.BookingStore.Create` | common/src/booking.rs:209-240 | stores `NewBooking` under a fresh id, changes no other record and returns the new booking |
| `Bookings.BookingStore.CheckPayment` | common/src/booking.rs:327-383 | `NotFound`, then `NoSquareOrder`, then the provider's failures, each leaving the store unchanged; otherwise the booking becomes its reconciliation and is returned |

## Left out

- Database queries and persistence (SurrealDB). The store is a map, the
  `FETCH contact, event` join is not modelled, and bookings keep their
  contact and event as ids. Database errors (`DBError`), the missing
  application state (`NoState`) and a record that vanishes between lookup and
  patch are not modelled. The per-slot `sold` aggregation query
  (common/src/event.rs:144-152) is not modelled either; `sold` is an input to
  the evaluator.
- The payment provider's HTTP calls, request building, JSON decoding and
  `create_payment_link`. These are network I/O. Only the shape of the
  response that `CheckPayment` reads is kept.
- The text of `From<Fail> for ServerFnError` and its log line. These are
  formatting and logging.
- Phone number normalisation, name sanitisation, authentication, sessions,
  server plumbing, UI components, proc macros and build scripts. These are
  foreign libraries, I/O and rendering.
- Randomness. `Uuid::new_v4` for list keys is replaced by the list's
  counter. The only idempotency key belongs to `create_payment_link`
  (common/src/booking.rs:281), which is left out with it.
- The Thing-to-id conversion of record ids, which belongs to generic_id.rs.
  The id is carried over as it is.
- ReactiveLists.ReactiveList.Insert: does not model that `tracked_insert`
  stores a newly created signal under the existing key. In the source a
  caller still holding the old signal then fails `is_our_ticket`
  (frontend/src/slot_state.rs:66), so its slot is no longer `InSlot` for it.
  In the model a cell's identity is its key, which `Insert` keeps, so
  `StateForTicket` with that key still gives `InSlot`.
- Ticket cell edits made directly through a cell's signal (the UI's field
  setters). The model changes a cell's value only through `Insert` on its key.
- The race between concurrent booking sessions. The evaluator works on one
  snapshot and does not claim to prevent overselling.
- SlotState.StateForTicket: does not model the 64-bit wrap-around of
  `capacity - sold - buying` or of the `usize`-to-`i64` cast of the count.
  Integers are unbounded, and those values stay far from the limits.
- Bookings.SumAmounts: does not model `Decimal` overflow, which panics beyond
  about 7.9e28. Amounts are unbounded reals.
- Timestamps (`DateTime<Utc>`) are opaque integers, and `start_local` and
  `end_local` (timezone conversion) are not modelled.
