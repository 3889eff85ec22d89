/** The state of one slot with respect to one ticket of the booking being
    composed (frontend/src/slot_state.rs). */
module SlotState {
  import opened Wrappers
  import opened Tickets
  import opened Events
  import opened ReactiveLists

  /** The draft list as the evaluator reads it: the (key, ticket) pairs of a
      `ReactiveList<Ticket>` in order.  The key is the ticket cell's identity. */
  type Draft = Entries<Ticket>

  datatype SlotStateForTicket =
    | InSlot(available: int, buying: int)    // the ticket is already in this slot
    | SomeLeft(available: int, buying: int)
    | Unlimited
    | NoneLeft(buying: int)
    | NotFound(name: string)

  // ---------------------------------------------------------------------
  // Reading the state

  /** An occupying ticket may always keep its slot. */
  predicate IsInSlot(s: SlotStateForTicket)
    ensures IsInSlot(s) ==> CanTake(s)
  {
    s.InSlot?
  }

  /** Whether the slot may be chosen.  For `SomeLeft` this asks for
      `buying <= available`, exactly as the source does. */
  predicate CanTake(s: SlotStateForTicket)
    ensures s.NoneLeft? || s.NotFound? ==> !CanTake(s)
    ensures CanTake(s) ==> Description(s) != "Sold out."
  {
    match s
    case InSlot(_, _) => true
    case SomeLeft(available, buying) => buying <= available
    case Unlimited => true
    case NoneLeft(_) => false
    case NotFound(_) => false
  }

  /** The text shown beside the slot; empty exactly for an unlimited slot. */
  function Description(s: SlotStateForTicket): (d: string)
    ensures d == "" <==> s.Unlimited?
  {
    match s
    case InSlot(available, _) =>
      if available <= 0 then "No more available." else IntToString(available) + " more available."
    case SomeLeft(available, _) => IntToString(available) + " available."
    case Unlimited => ""
    case NoneLeft(buying) => if buying == 0 then "Sold out." else "No more available."
    case NotFound(name) => "Error! slot " + name + " found."
  }

  // ---------------------------------------------------------------------
  // Rendering integers the way Rust's `{}` renders an i64

  function DigitChar(d: nat): (c: char)
    requires d < 10
    ensures '0' <= c <= '9'
  {
    "0123456789"[d]
  }

  function NatToString(n: nat): (s: string)
    ensures |s| >= 1
    ensures forall i :: 0 <= i < |s| ==> '0' <= s[i] <= '9'
  {
    if n < 10 then [DigitChar(n)] else NatToString(n / 10) + [DigitChar(n % 10)]
  }

  function IntToString(i: int): (s: string)
    ensures |s| >= 1
    ensures i >= 0 ==> s == NatToString(i)
    ensures i < 0 ==> s[0] == '-'
  {
    if i < 0 then "-" + NatToString(-i) else NatToString(i)
  }

  // ---------------------------------------------------------------------
  // The inputs the evaluator derives from the snapshot and the draft list

  /** The first slot detail with the given name, as `Iterator::find` gives it. */
  function FindSlot(slots: seq<SlotDetail>, name: string): (r: Option<SlotDetail>)
    ensures r.None? <==> forall i :: 0 <= i < |slots| ==> slots[i].name != name
    ensures r.Some? ==> exists i :: 0 <= i < |slots| && slots[i] == r.value
                                  && slots[i].name == name
                                  && forall j :: 0 <= j < i ==> slots[j].name != name
  {
    if slots == [] then None
    else if slots[0].name == name then Some(slots[0])
    else
      var r := FindSlot(slots[1..], name);
      assert forall i :: 0 < i < |slots| ==> slots[i] == slots[1..][i - 1];
      r
  }

  predicate InSlotNamed(t: Ticket, name: string) {
    t.slotName == Some(name)
  }

  /** The positions of the draft tickets whose slot is `name`. */
  ghost function InSlotIndices(draft: Draft, name: string): set<nat> {
    set i: nat | i < |draft| && InSlotNamed(draft[i].1, name)
  }

  /** The number of draft tickets whose slot is `name` (`filter(in_slot).count()`). */
  function Buying(draft: Draft, name: string): (n: nat)
    ensures n <= |draft|
  {
    if draft == [] then 0
    else Buying(draft[..|draft| - 1], name) + (if InSlotNamed(draft[|draft| - 1].1, name) then 1 else 0)
  }

  /** Whether the ticket with this key is among the draft tickets in the slot
      (`filter(in_slot).any(is_our_ticket)`): a comparison of identities. */
  predicate AlreadyThere(draft: Draft, name: string, ticket: Option<Key>)
    ensures AlreadyThere(draft, name, ticket) ==> ticket.Some? && HasKey(draft, ticket.value)
  {
    ticket.Some? && exists i :: 0 <= i < |draft| && draft[i].0 == ticket.value && InSlotNamed(draft[i].1, name)
  }

  /** `Buying` counts exactly the draft positions whose ticket is in the slot. */
  lemma {:induction false} BuyingCountsInSlotIndices(draft: Draft, name: string)
    ensures Buying(draft, name) == |InSlotIndices(draft, name)|
  {
    if draft == [] {
      assert InSlotIndices(draft, name) == {};
    } else {
      var n := |draft| - 1;
      var front := draft[..n];
      BuyingCountsInSlotIndices(front, name);
      var last := if InSlotNamed(draft[n].1, name) then {n} else {};
      assert InSlotIndices(draft, name) == InSlotIndices(front, name) + last;
      assert n !in InSlotIndices(front, name);
    }
  }

  /** A ticket in the slot contributes to `buying`. */
  lemma BuyingPositive(draft: Draft, name: string, i: nat)
    requires i < |draft| && InSlotNamed(draft[i].1, name)
    ensures Buying(draft, name) >= 1
  {
    BuyingCountsInSlotIndices(draft, name);
    assert i in InSlotIndices(draft, name);
  }

  /** No ticket in the slot means nothing is being bought in it. */
  lemma BuyingZero(draft: Draft, name: string)
    requires forall i :: 0 <= i < |draft| ==> !InSlotNamed(draft[i].1, name)
    ensures Buying(draft, name) == 0
  {
    BuyingCountsInSlotIndices(draft, name);
    assert InSlotIndices(draft, name) == {};
  }

  /** Appending a ticket adds one to `buying` exactly when it is in the slot. */
  lemma BuyingAppend(draft: Draft, e: (Key, Ticket), name: string)
    ensures Buying(draft + [e], name) == Buying(draft, name) + (if InSlotNamed(e.1, name) then 1 else 0)
  {
    assert (draft + [e])[..|draft|] == draft;
  }

  /** `buying` over two parts of a draft list is the sum over each part. */
  lemma {:induction false} BuyingConcat(a: Draft, b: Draft, name: string)
    ensures Buying(a + b, name) == Buying(a, name) + Buying(b, name)
  {
    if b == [] {
      assert a + b == a;
    } else {
      var n := |b| - 1;
      BuyingConcat(a, b[..n], name);
      assert (a + b)[..|a + b| - 1] == a + b[..n];
      assert (a + b)[|a + b| - 1] == b[n];
    }
  }

  /** Removing a ticket from the draft list gives its place back: `buying`
      drops by one exactly when the removed ticket was in the slot, and the
      removed key is no longer in any slot. */
  lemma BuyingAfterRemove(draft: Draft, name: string, i: nat)
    requires KeysDistinct(draft) && i < |draft|
    ensures var rest := Removed(draft, draft[i].0);
            && Buying(rest, name) == Buying(draft, name) - (if InSlotNamed(draft[i].1, name) then 1 else 0)
            && !AlreadyThere(rest, name, Some(draft[i].0))
  {
    RemovePresent(draft, draft[i].0, i);
    assert draft == draft[..i] + [draft[i]] + draft[i + 1..];
    BuyingConcat(draft[..i] + [draft[i]], draft[i + 1..], name);
    BuyingConcat(draft[..i], [draft[i]], name);
    BuyingConcat(draft[..i], draft[i + 1..], name);
    var one: Draft := [draft[i]];
    assert one[..0] == [];
  }

  // ---------------------------------------------------------------------
  // The evaluator

  /** `slot_state_for_ticket`: the state of slot `name` for the ticket with key
      `ticket` (if any), given the server's slot snapshot and the draft list. */
  function StateForTicket(slots: seq<SlotDetail>, name: string, draft: Draft, ticket: Option<Key>)
    : (r: SlotStateForTicket)
    ensures r.NotFound? <==> forall i :: 0 <= i < |slots| ==> slots[i].name != name
    ensures r.NotFound? ==> r == NotFound(name)
    ensures r.Unlimited? <==> FindSlot(slots, name).Some? && FindSlot(slots, name).value.capacity.None?
    ensures r.InSlot? || r.SomeLeft? || r.NoneLeft? ==> r.buying == Buying(draft, name)
    ensures r.InSlot? || r.SomeLeft? ==>
              var d := FindSlot(slots, name).value;
              d.capacity.Some? && r.available == d.capacity.value - d.sold - r.buying
    ensures r.InSlot? <==> FindSlot(slots, name).Some? && FindSlot(slots, name).value.capacity.Some?
                           && AlreadyThere(draft, name, ticket)
    ensures r.SomeLeft? ==> !AlreadyThere(draft, name, ticket) && r.available > 0
    ensures r.NoneLeft? ==>
              var d := FindSlot(slots, name).value;
              !AlreadyThere(draft, name, ticket) && d.capacity.Some?
              && d.capacity.value - d.sold - r.buying <= 0
    ensures ticket.None? ==> !r.InSlot?
    ensures r.InSlot? ==> r.buying >= 1
  {
    match FindSlot(slots, name)
    case None => NotFound(name)
    case Some(details) =>
      match details.capacity
      case None => Unlimited
      case Some(cap) =>
        var buying := Buying(draft, name);
        var available := cap - details.sold - buying;
        if AlreadyThere(draft, name, ticket) then
          var i :| 0 <= i < |draft| && draft[i].0 == ticket.value && InSlotNamed(draft[i].1, name);
          BuyingPositive(draft, name, i);
          InSlot(available, buying)
        else if available > 0 then SomeLeft(available, buying)
        else NoneLeft(buying)
  }

  // ---------------------------------------------------------------------
  // What the evaluator promises about `can_take`, `description` and identity

  /** `can_take` of an evaluated state: never for a missing slot, always for an
      unlimited one, always for the ticket already in the slot, and otherwise
      only when some place is left and `buying <= available`. */
  lemma CanTakeOfState(slots: seq<SlotDetail>, name: string, draft: Draft, ticket: Option<Key>)
    ensures var r := StateForTicket(slots, name, draft, ticket);
            var d := FindSlot(slots, name);
            && (d.None? ==> !CanTake(r))
            && (d.Some? && d.value.capacity.None? ==> CanTake(r))
            && (d.Some? && d.value.capacity.Some? && AlreadyThere(draft, name, ticket) ==> CanTake(r))
            && (d.Some? && d.value.capacity.Some? && !AlreadyThere(draft, name, ticket) ==>
                  var available := d.value.capacity.value - d.value.sold - Buying(draft, name);
                  (CanTake(r) <==> 0 < available && Buying(draft, name) <= available))
  {
  }

  /** An unlimited slot is always takeable and has no description. */
  lemma UnlimitedIsTakeableAndSilent(slots: seq<SlotDetail>, name: string, draft: Draft, ticket: Option<Key>)
    requires FindSlot(slots, name).Some? && FindSlot(slots, name).value.capacity.None?
    ensures var r := StateForTicket(slots, name, draft, ticket);
            r == Unlimited && CanTake(r) && Description(r) == ""
  {
  }

  /** A slot missing from the snapshot is reported by name and never takeable. */
  lemma MissingSlotIsNotFound(slots: seq<SlotDetail>, name: string, draft: Draft, ticket: Option<Key>)
    requires forall i :: 0 <= i < |slots| ==> slots[i].name != name
    ensures var r := StateForTicket(slots, name, draft, ticket);
            r == NotFound(name) && !CanTake(r) && Description(r) == "Error! slot " + name + " found."
  {
  }

  /** An occupant may always stay: the ticket already in a full slot still
      sees an `InSlot` state it can take, while the same slot evaluated for no
      particular ticket is `NoneLeft` and cannot be taken. */
  lemma OccupantMayStay(slots: seq<SlotDetail>, name: string, draft: Draft, i: nat)
    requires i < |draft| && InSlotNamed(draft[i].1, name)
    requires FindSlot(slots, name).Some? && FindSlot(slots, name).value.capacity.Some?
    requires var d := FindSlot(slots, name).value;
             d.capacity.value - d.sold - Buying(draft, name) <= 0
    ensures var mine := StateForTicket(slots, name, draft, Some(draft[i].0));
            mine.InSlot? && CanTake(mine) && mine.buying >= 1
    ensures var other := StateForTicket(slots, name, draft, None);
            other == NoneLeft(Buying(draft, name)) && !CanTake(other)
  {
  }

  /** Identity, not value, decides occupancy: a key that is not in the draft
      list never yields `InSlot`, even when a ticket equal in every field
      occupies the slot. */
  lemma OccupancyIsByKey(slots: seq<SlotDetail>, name: string, draft: Draft, k: Key)
    requires forall i :: 0 <= i < |draft| ==> draft[i].0 != k
    ensures !StateForTicket(slots, name, draft, Some(k)).InSlot?
  {
  }

  /** Two draft tickets equal in every field but under different keys: the
      one asked about by its own key is in the slot, and so is the other one
      by its key, but a third key is not. */
  lemma EqualTicketsDistinctIdentities(tt: TicketType)
    ensures var t := Ticket(tt, false, false, "", Some("dinner"));
            var slots := [SlotDetail("dinner", Some(2), 0)];
            var draft := [(0, t), (1, t)];
            && StateForTicket(slots, "dinner", draft, Some(0)) == InSlot(0, 2)
            && StateForTicket(slots, "dinner", draft, Some(1)) == InSlot(0, 2)
            && StateForTicket(slots, "dinner", draft, Some(2)) == NoneLeft(2)
  {
    var t := Ticket(tt, false, false, "", Some("dinner"));
    var draft: Draft := [(0, t), (1, t)];
    assert draft[..1] == [(0, t)];
    assert Buying(draft, "dinner") == 2;
    assert draft[0].0 == 0 && draft[1].0 == 1;
  }

  /** A freshly made ticket occupies no slot, so adding it to the draft list
      changes no slot's state for any ticket. */
  lemma NewTicketChangesNoState(slots: seq<SlotDetail>, name: string, draft: Draft, k: Key,
                                tt: TicketType, ticket: Option<Key>)
    ensures StateForTicket(slots, name, draft + [(k, NewTicket(tt))], ticket)
         == StateForTicket(slots, name, draft, ticket)
  {
    var draft' := draft + [(k, NewTicket(tt))];
    BuyingAppend(draft, (k, NewTicket(tt)), name);
    if AlreadyThere(draft', name, ticket) {
      var i :| 0 <= i < |draft'| && draft'[i].0 == ticket.value && InSlotNamed(draft'[i].1, name);
      assert i < |draft| && draft[i] == draft'[i];
    }
    if AlreadyThere(draft, name, ticket) {
      var i :| 0 <= i < |draft| && draft[i].0 == ticket.value && InSlotNamed(draft[i].1, name);
      assert draft'[i] == draft[i];
    }
  }

  /** The boundary case: capacity 5, three sold, two draft tickets asking for
      the slot and none yet placed leaves nothing, so the slot cannot be taken. */
  lemma ExactBoundary(tt: TicketType)
    ensures var t := Ticket(tt, false, false, "", Some("dinner"));
            var r := StateForTicket([SlotDetail("dinner", Some(5), 3)], "dinner", [(0, t), (1, t)], None);
            r == NoneLeft(2) && !CanTake(r) && Description(r) == "No more available."
  {
    var t := Ticket(tt, false, false, "", Some("dinner"));
    var draft: Draft := [(0, t), (1, t)];
    assert draft[..1] == [(0, t)];
    assert Buying(draft, "dinner") == 2;
  }

  /** A full slot with nothing in the draft list reads "Sold out.". */
  lemma SoldOut(draft: Draft, name: string)
    requires forall i :: 0 <= i < |draft| ==> !InSlotNamed(draft[i].1, name)
    ensures var r := StateForTicket([SlotDetail(name, Some(2), 2)], name, draft, None);
            r == NoneLeft(0) && !CanTake(r) && Description(r) == "Sold out."
  {
    BuyingZero(draft, name);
  }

  /** `SomeLeft` asks for `buying <= available`, so a slot that still shows
      places left can refuse a new ticket: capacity 10 and six tickets already
      in it shows "4 available." but cannot be taken by a seventh. */
  lemma SomeLeftCanRefuse(tt: TicketType)
    ensures var t := Ticket(tt, false, false, "", Some("lunch"));
            var draft := [(0, t), (1, t), (2, t), (3, t), (4, t), (5, t)];
            var r := StateForTicket([SlotDetail("lunch", Some(10), 0)], "lunch", draft, Some(6));
            r == SomeLeft(4, 6) && !CanTake(r) && Description(r) == "4 available."
  {
    var t := Ticket(tt, false, false, "", Some("lunch"));
    var draft: Draft := [(0, t), (1, t), (2, t), (3, t), (4, t), (5, t)];
    assert draft[..1][..0] == [];
    assert Buying(draft[..1], "lunch") == 1;
    assert draft[..2][..1] == draft[..1];
    assert Buying(draft[..2], "lunch") == 2;
    assert draft[..3][..2] == draft[..2];
    assert Buying(draft[..3], "lunch") == 3;
    assert draft[..4][..3] == draft[..3];
    assert Buying(draft[..4], "lunch") == 4;
    assert draft[..5][..4] == draft[..4];
    assert Buying(draft[..5], "lunch") == 5;
    assert draft[..6] == draft && draft[..5] == draft[..|draft| - 1];
    assert Buying(draft, "lunch") == 6;
    assert !AlreadyThere(draft, "lunch", Some(6));
  }

  /** "Sold out." is shown exactly for `NoneLeft{buying: 0}`. */
  lemma SoldOutOnlyWhenNothingBought(s: SlotStateForTicket)
    ensures Description(s) == "Sold out." <==> s == NoneLeft(0)
  {
    if s.InSlot? && s.available > 0 {
      var p := IntToString(s.available);
      assert Description(s)[|p|..] == " more available.";
    } else if s.SomeLeft? {
      var p := IntToString(s.available);
      assert Description(s)[|p|..] == " available.";
    } else if s.NotFound? {
      assert Description(s)[0] == 'E';
    }
  }

  /** A state the evaluator offers with places left shows the exact number,
      with no sign. */
  lemma DescriptionOfPlacesLeft(slots: seq<SlotDetail>, name: string, draft: Draft, ticket: Option<Key>)
    ensures var r := StateForTicket(slots, name, draft, ticket);
            && (r.SomeLeft? ==> Description(r) == NatToString(r.available) + " available.")
            && (r.InSlot? && r.available > 0 ==> Description(r) == NatToString(r.available) + " more available.")
            && (r.InSlot? && r.available <= 0 ==> Description(r) == "No more available.")
            && (r.NoneLeft? && r.buying > 0 ==> Description(r) == "No more available.")
  {
  }
}
