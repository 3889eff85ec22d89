/** Events, their slots and ticket types (common/src/event.rs). */
module Events {
  import opened Wrappers
  import opened Tickets

  /** A point in time (chrono's `DateTime<Utc>`), kept opaque. */
  type Timestamp = int

  /** A named slot; a capacity of `None` means unlimited. */
  datatype Slot = Slot(name: string, capacity: Option<int>)

  datatype Slots = Slots(description: Option<string>, list: seq<Slot>)

  /** Per-slot figures the server reports: `sold` admissions already taken
      by confirmed bookings. */
  datatype SlotDetail = SlotDetail(name: string, capacity: Option<int>, sold: int)

  datatype Event = Event(
    id: string,
    name: string,
    tagline: string,
    defaultTicketType: TicketType,
    additionalTicketTypes: seq<TicketType>,
    slots: Slots,
    start: Timestamp,
    end: Timestamp)

  /** The stored form of an event, which also carries a stray
      `slots_description` field. */
  datatype DbEvent = DbEvent(
    id: string,
    name: string,
    tagline: string,
    defaultTicketType: TicketType,
    additionalTicketTypes: seq<TicketType>,
    slots: Slots,
    slotsDescription: Option<string>,
    start: Timestamp,
    end: Timestamp)

  /** `Event::ticket_types`: the default type, then the additional ones. */
  function TicketTypes(e: Event): (all: seq<TicketType>)
    ensures |all| == 1 + |e.additionalTicketTypes|
    ensures all[0] == e.defaultTicketType
    ensures all[1..] == e.additionalTicketTypes
  {
    [e.defaultTicketType] + e.additionalTicketTypes
  }

  /** A ticket type is offered exactly when it is the default or one of the
      additional types. */
  lemma TicketTypesMembership(e: Event, tt: TicketType)
    ensures tt in TicketTypes(e) <==> tt == e.defaultTicketType || tt in e.additionalTicketTypes
  {
    var all := TicketTypes(e);
    if tt in all {
      var i :| 0 <= i < |all| && all[i] == tt;
      if i > 0 {
        assert all[1..][i - 1] == tt;
      }
    }
    if tt in e.additionalTicketTypes {
      var j :| 0 <= j < |e.additionalTicketTypes| && e.additionalTicketTypes[j] == tt;
      assert all[j + 1] == tt;
    }
  }

  /** `From<DbEvent> for Event`: a field-by-field copy (the record id is
      carried over as it is) that drops `slots_description`. */
  function EventFromDb(item: DbEvent): (e: Event)
    ensures e.id == item.id && e.name == item.name && e.tagline == item.tagline
    ensures e.defaultTicketType == item.defaultTicketType
    ensures e.additionalTicketTypes == item.additionalTicketTypes
    ensures e.slots == item.slots && e.start == item.start && e.end == item.end
  {
    Event(item.id, item.name, item.tagline, item.defaultTicketType,
          item.additionalTicketTypes, item.slots, item.start, item.end)
  }

  /** The conversion ignores `slots_description`: stored events that differ
      only there become the same event. */
  lemma EventFromDbIgnoresSlotsDescription(a: DbEvent, b: DbEvent)
    requires a.(slotsDescription := None) == b.(slotsDescription := None)
    ensures EventFromDb(a) == EventFromDb(b)
  {
  }

  /** The conversion loses nothing else: two stored events that agree on
      `slots_description` and convert to the same event are equal. */
  lemma EventFromDbInjective(a: DbEvent, b: DbEvent)
    requires a.slotsDescription == b.slotsDescription
    requires EventFromDb(a) == EventFromDb(b)
    ensures a == b
  {
  }
}
