/** Tickets and ticket types (common/src/ticket.rs). */
module Tickets {
  import opened Wrappers

  /** Exact decimal money (rust_decimal's `Decimal`), as a Dafny real. */
  type Decimal = real

  /** A ticket type; equality is structural over every field. */
  datatype TicketType = TicketType(
    name: string,
    price: Decimal,
    squareItemId: string,
    squareCatalogVersion: int,
    available: Option<int>)

  /** One admission in a booking.  Equality is structural over the five
      fields: two tickets with the same contents are the same value, so a
      ticket's identity in a draft list has to come from its list key. */
  datatype Ticket = Ticket(
    ticketType: TicketType,
    vegetarian: bool,
    glutenFree: bool,
    dietaryRequirements: string,
    slotName: Option<string>)

  /** `Ticket::new`: the given type, no dietary flags, no requirements text
      and no slot. */
  function NewTicket(ticketType: TicketType): (t: Ticket)
    ensures t.ticketType == ticketType
    ensures !t.vegetarian && !t.glutenFree
    ensures t.dietaryRequirements == ""
    ensures t.slotName == None
  {
    Ticket(ticketType, false, false, "", None)
  }
}
