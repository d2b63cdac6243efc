/**
 * The steps sp_create_booking and sp_update_booking_status take on the tables,
 * and the proofs that each step keeps the foreign keys, the UNIQUE constraints
 * and the invariant "at most one confirmed/completed booking per slot, and its
 * slot is 'booked'".
 */
module BookingInvariants {
  import opened Common
  import opened Schema
  import opened Tables
  import Seqs

  /** The constraints every state of the database satisfies (besides the SERIAL keys). */
  predicate Consistent(advisors: seq<Advisor>, slots: seq<TimeSlot>, bookings: seq<Booking>,
                       logs: seq<EmailLog>, admins: seq<Admin>) {
    && SlotsHaveAdvisors(slots, advisors)
    && SlotTriplesUnique(slots)
    && BookingsHaveSlots(bookings, slots, advisors)
    && LogsHaveBookings(logs, bookings)
    && AdminEmailsUnique(admins)
    && OneActivePerSlot(bookings)
    && ActiveHoldSlots(bookings, slots)
  }

  // ---------------------------------------------------------- slot updates

  /** Changing the status of slots keeps their advisors, their times and the bookings' references. */
  lemma SetSlotStatusKeepsReferences(advisors: seq<Advisor>, slots: seq<TimeSlot>, bookings: seq<Booking>,
                                     id: int, st: SlotStatus)
    requires SlotsHaveAdvisors(slots, advisors) && SlotTriplesUnique(slots)
    requires BookingsHaveSlots(bookings, slots, advisors)
    ensures SlotsHaveAdvisors(SetSlotStatus(slots, id, st), advisors)
    ensures SlotTriplesUnique(SetSlotStatus(slots, id, st))
    ensures BookingsHaveSlots(bookings, SetSlotStatus(slots, id, st), advisors)
  {
    forall i | 0 <= i < |bookings|
      ensures FindSlot(SetSlotStatus(slots, id, st), bookings[i].slotId).Some?
      ensures FindSlot(SetSlotStatus(slots, id, st), bookings[i].slotId).value.advisorId == bookings[i].advisorId
    {
      FindSlotAfterSet(slots, id, st, bookings[i].slotId);
    }
  }

  // -------------------------------------------------------------- booking

  /**
   * Booking a free slot: the new confirmed booking is appended, the slot becomes
   * 'booked' and a confirmation log row for the new booking is appended.  The
   * new booking cannot clash with another active one, because an active booking
   * would have left its slot 'booked', not 'free'.
   */
  lemma BookKeepsConsistent(advisors: seq<Advisor>, slots: seq<TimeSlot>, bookings: seq<Booking>,
                            logs: seq<EmailLog>, admins: seq<Admin>, b: Booking, l: EmailLog)
    requires Consistent(advisors, slots, bookings, logs, admins)
    requires FindSlot(slots, b.slotId).Some? && FindSlot(slots, b.slotId).value.status == Free
    requires FindSlot(slots, b.slotId).value.advisorId == b.advisorId
    requires FindBooking(bookings, b.id).None? && b.status == Confirmed
    requires l.bookingId == b.id
    ensures Consistent(advisors, SetSlotStatus(slots, b.slotId, Booked), bookings + [b], logs + [l], admins)
  {
    var slots' := SetSlotStatus(slots, b.slotId, Booked);
    var bookings' := bookings + [b];
    var logs' := logs + [l];
    SetSlotStatusKeepsReferences(advisors, slots, bookings, b.slotId, Booked);
    FindSlotAfterSet(slots, b.slotId, Booked, b.slotId);
    assert FindAdvisor(advisors, b.advisorId).Some?;

    BookKeepsOneActive(slots, bookings, b);
    BookHoldsSlots(slots, bookings, b);
    assert BookingsHaveSlots(bookings', slots', advisors) by {
      forall i | 0 <= i < |bookings'|
        ensures FindSlot(slots', bookings'[i].slotId).Some?
        ensures FindSlot(slots', bookings'[i].slotId).value.advisorId == bookings'[i].advisorId
        ensures FindAdvisor(advisors, bookings'[i].advisorId).Some?
      {
        if i < |bookings| {
          assert bookings'[i] == bookings[i];
        }
      }
    }
    assert LogsHaveBookings(logs', bookings') by {
      forall i | 0 <= i < |logs'|
        ensures FindBooking(bookings', logs'[i].bookingId).Some?
      {
        FindBookingAfterAppend(bookings, b, logs'[i].bookingId);
        if i < |logs| {
          assert logs'[i] == logs[i];
        }
      }
    }
  }

  /** An active booking on the booked slot would have marked it 'booked', so the new one is its only active booking. */
  lemma BookKeepsOneActive(slots: seq<TimeSlot>, bookings: seq<Booking>, b: Booking)
    requires OneActivePerSlot(bookings) && ActiveHoldSlots(bookings, slots)
    requires FindSlot(slots, b.slotId).Some? && FindSlot(slots, b.slotId).value.status == Free
    ensures OneActivePerSlot(bookings + [b])
  {
    var bookings' := bookings + [b];
    forall i | 0 <= i < |bookings| && bookings[i].slotId == b.slotId
      ensures !IsActive(bookings[i].status)
    {
      // an active booking on this slot would have marked it 'booked'
    }
    forall i, j | 0 <= i < j < |bookings'| && bookings'[i].slotId == bookings'[j].slotId
      ensures !(IsActive(bookings'[i].status) && IsActive(bookings'[j].status))
    {
      if j == |bookings| {
        assert bookings'[i] == bookings[i];
      } else {
        assert bookings'[i] == bookings[i] && bookings'[j] == bookings[j];
      }
    }
  }

  /** Marking the booked slot 'booked' keeps every active booking's slot 'booked', the new one's included. */
  lemma BookHoldsSlots(slots: seq<TimeSlot>, bookings: seq<Booking>, b: Booking)
    requires ActiveHoldSlots(bookings, slots)
    requires FindSlot(slots, b.slotId).Some?
    ensures ActiveHoldSlots(bookings + [b], SetSlotStatus(slots, b.slotId, Booked))
  {
    var slots' := SetSlotStatus(slots, b.slotId, Booked);
    var bookings' := bookings + [b];
    forall i | 0 <= i < |bookings'| && IsActive(bookings'[i].status)
      ensures FindSlot(slots', bookings'[i].slotId).Some?
      ensures FindSlot(slots', bookings'[i].slotId).value.status == Booked
    {
      FindSlotAfterSet(slots, b.slotId, Booked, bookings'[i].slotId);
      if i < |bookings| {
        assert bookings'[i] == bookings[i];
      }
    }
  }

  // -------------------------------------------------------- status changes

  /** A status update keeps every booking's id, slot and advisor, so every reference into bookings still resolves. */
  lemma SetBookingStatusKeepsReferences(advisors: seq<Advisor>, slots: seq<TimeSlot>, bookings: seq<Booking>,
                                        logs: seq<EmailLog>, id: int, st: BookingStatus, now: int, last: int)
    requires BookingsHaveSlots(bookings, slots, advisors)
    requires LogsHaveBookings(logs, bookings)
    requires SerialKeys(bookings, BookingKey, last)
    ensures BookingsHaveSlots(SetBookingStatus(bookings, id, st, now), slots, advisors)
    ensures LogsHaveBookings(logs, SetBookingStatus(bookings, id, st, now))
    ensures SerialKeys(SetBookingStatus(bookings, id, st, now), BookingKey, last)
  {
    forall i | 0 <= i < |logs|
      ensures FindBooking(SetBookingStatus(bookings, id, st, now), logs[i].bookingId).Some?
    {
      FindBookingAfterSet(bookings, id, st, now, logs[i].bookingId);
    }
  }

  /**
   * Cancelling an active booking and freeing its slot: no other active booking
   * used that slot (at most one per slot), so nothing is left pointing at a
   * freed slot.
   */
  lemma CancelKeepsActiveInvariant(bookings: seq<Booking>, slots: seq<TimeSlot>, k: int, now: int)
    requires Seqs.KeysUnique(bookings, BookingKey)
    requires OneActivePerSlot(bookings) && ActiveHoldSlots(bookings, slots)
    requires 0 <= k < |bookings| && IsActive(bookings[k].status)
    ensures OneActivePerSlot(SetBookingStatus(bookings, bookings[k].id, Cancelled, now))
    ensures ActiveHoldSlots(SetBookingStatus(bookings, bookings[k].id, Cancelled, now),
                            SetSlotStatus(slots, bookings[k].slotId, Free))
  {
    var bs := SetBookingStatus(bookings, bookings[k].id, Cancelled, now);
    var slots' := SetSlotStatus(slots, bookings[k].slotId, Free);
    assert forall i :: 0 <= i < |bookings| && i != k ==> bs[i] == bookings[i];
    forall i | 0 <= i < |bs| && IsActive(bs[i].status)
      ensures FindSlot(slots', bs[i].slotId).Some? && FindSlot(slots', bs[i].slotId).value.status == Booked
    {
      assert i != k && bs[i] == bookings[i];
      assert bookings[i].slotId != bookings[k].slotId;
      FindSlotAfterSet(slots, bookings[k].slotId, Free, bs[i].slotId);
    }
  }

  /**
   * Confirming or completing booking k when no other booking on its slot is
   * active, and marking the slot 'booked', keeps one active booking per slot.
   */
  lemma ActivateKeepsActiveInvariant(bookings: seq<Booking>, slots: seq<TimeSlot>, k: int,
                                     st: BookingStatus, now: int)
    requires Seqs.KeysUnique(bookings, BookingKey)
    requires OneActivePerSlot(bookings) && ActiveHoldSlots(bookings, slots)
    requires 0 <= k < |bookings| && IsActive(st)
    requires FindSlot(slots, bookings[k].slotId).Some?
    requires !OtherActiveOnSlot(SetBookingStatus(bookings, bookings[k].id, st, now), bookings[k].slotId, bookings[k].id)
    ensures OneActivePerSlot(SetBookingStatus(bookings, bookings[k].id, st, now))
    ensures ActiveHoldSlots(SetBookingStatus(bookings, bookings[k].id, st, now),
                            SetSlotStatus(slots, bookings[k].slotId, Booked))
  {
    var bs := SetBookingStatus(bookings, bookings[k].id, st, now);
    var slots' := SetSlotStatus(slots, bookings[k].slotId, Booked);
    assert forall i :: 0 <= i < |bookings| && i != k ==> bs[i] == bookings[i];
    forall i, j | 0 <= i < j < |bs| && bs[i].slotId == bs[j].slotId
      ensures !(IsActive(bs[i].status) && IsActive(bs[j].status))
    {
      if i == k {
        assert !IsActiveRival(bs[j], bookings[k].slotId, bookings[k].id);
      } else if j == k {
        assert !IsActiveRival(bs[i], bookings[k].slotId, bookings[k].id);
      }
    }
    forall i | 0 <= i < |bs| && IsActive(bs[i].status)
      ensures FindSlot(slots', bs[i].slotId).Some? && FindSlot(slots', bs[i].slotId).value.status == Booked
    {
      FindSlotAfterSet(slots, bookings[k].slotId, Booked, bs[i].slotId);
    }
  }

  // --------------------------------------------------------- plain inserts

  /** A new advisor row leaves every advisor reference resolving. */
  lemma AdvisorAppendKeepsReferences(advisors: seq<Advisor>, slots: seq<TimeSlot>, bookings: seq<Booking>, a: Advisor)
    requires SlotsHaveAdvisors(slots, advisors) && BookingsHaveSlots(bookings, slots, advisors)
    ensures SlotsHaveAdvisors(slots, advisors + [a]) && BookingsHaveSlots(bookings, slots, advisors + [a])
  {
    forall k | FindAdvisor(advisors, k).Some? ensures FindAdvisor(advisors + [a], k).Some? {
      FindAdvisorAfterAppend(advisors, a, k);
    }
  }

  /**
   * A new slot with a fresh id, a known advisor and an unused (advisor, start,
   * end) triple keeps every constraint: no booking can refer to the fresh id.
   */
  lemma SlotAppendKeepsConsistent(advisors: seq<Advisor>, slots: seq<TimeSlot>, bookings: seq<Booking>,
                                  logs: seq<EmailLog>, admins: seq<Admin>, s: TimeSlot)
    requires Consistent(advisors, slots, bookings, logs, admins)
    requires FindSlot(slots, s.id).None? && FindAdvisor(advisors, s.advisorId).Some?
    requires !SlotTaken(slots, s.advisorId, s.startUtc, s.endUtc)
    ensures Consistent(advisors, slots + [s], bookings, logs, admins)
  {
    var slots' := slots + [s];
    forall k | FindSlot(slots, k).Some? ensures FindSlot(slots', k) == FindSlot(slots, k) {
      FindSlotAfterAppend(slots, s, k);
    }
    assert SlotTriplesUnique(slots') by {
      forall i, j | 0 <= i < j < |slots'|
        ensures (slots'[i].advisorId, slots'[i].startUtc, slots'[i].endUtc)
             != (slots'[j].advisorId, slots'[j].startUtc, slots'[j].endUtc)
      {
        assert slots'[i] == slots[i];
        if j == |slots| {
          assert !SameTriple(slots[i], s.advisorId, s.startUtc, s.endUtc);
        } else {
          assert slots'[j] == slots[j];
        }
      }
    }
    assert SlotsHaveAdvisors(slots', advisors) by {
      forall i | 0 <= i < |slots'| ensures FindAdvisor(advisors, slots'[i].advisorId).Some? {
        if i < |slots| { assert slots'[i] == slots[i]; }
      }
    }
  }

  /** A log row for an existing booking keeps every constraint. */
  lemma LogAppendKeepsConsistent(advisors: seq<Advisor>, slots: seq<TimeSlot>, bookings: seq<Booking>,
                                 logs: seq<EmailLog>, admins: seq<Admin>, l: EmailLog)
    requires Consistent(advisors, slots, bookings, logs, admins)
    requires FindBooking(bookings, l.bookingId).Some?
    ensures Consistent(advisors, slots, bookings, logs + [l], admins)
  {
    assert forall i :: 0 <= i < |logs| ==> (logs + [l])[i] == logs[i];
  }

  /** An admin row with an e-mail no admin has keeps every constraint. */
  lemma AdminAppendKeepsConsistent(advisors: seq<Advisor>, slots: seq<TimeSlot>, bookings: seq<Booking>,
                                   logs: seq<EmailLog>, admins: seq<Admin>, a: Admin)
    requires Consistent(advisors, slots, bookings, logs, admins)
    requires FindAdminByEmail(admins, a.email).None?
    ensures Consistent(advisors, slots, bookings, logs, admins + [a])
  {
    assert forall i :: 0 <= i < |admins| ==> (admins + [a])[i] == admins[i];
  }

  // ------------------------------------------------ whole-database steps

  /** Every constraint of the schema and the one-active-booking-per-slot invariant. */
  predicate Invariant(d: Db) {
    && SerialKeys(d.advisors, AdvisorKey, d.advisorSeq)
    && SerialKeys(d.slots, SlotKey, d.slotSeq)
    && SerialKeys(d.bookings, BookingKey, d.bookingSeq)
    && SerialKeys(d.emailLogs, EmailLogKey, d.emailLogSeq)
    && SerialKeys(d.admins, AdminKey, d.adminSeq)
    && Consistent(d.advisors, d.slots, d.bookings, d.emailLogs, d.admins)
  }

  /** The empty database of a fresh installation. */
  const EmptyDb := Db([], [], [], [], [], 0, 0, 0, 0, 0)

  lemma EmptyDbInvariant()
    ensures Invariant(EmptyDb)
  {
  }

  /**
   * sp_create_booking's three writes for a free slot: the new booking `b` (next
   * id, the slot's advisor, confirmed), the slot marked 'booked' and the pending
   * confirmation row `l` (next id) for `b`.
   */
  lemma BookStepKeepsInvariant(d: Db, slot: TimeSlot, b: Booking, l: EmailLog)
    requires Invariant(d) && slot.status == Free && FindSlot(d.slots, slot.id) == Some(slot)
    requires b.id == d.bookingSeq + 1 && b.slotId == slot.id && b.advisorId == slot.advisorId && b.status == Confirmed
    requires l.id == d.emailLogSeq + 1 && l.bookingId == b.id
    ensures Invariant(d.(bookings := d.bookings + [b], slots := SetSlotStatus(d.slots, slot.id, Booked),
                         emailLogs := d.emailLogs + [l], bookingSeq := b.id, emailLogSeq := l.id))
  {
    SerialAppend(d.bookings, BookingKey, d.bookingSeq, b);
    SerialAppend(d.emailLogs, EmailLogKey, d.emailLogSeq, l);
    SetSlotStatusKeepsKeys(d.slots, slot.id, Booked, d.slotSeq);
    BookKeepsConsistent(d.advisors, d.slots, d.bookings, d.emailLogs, d.admins, b, l);
  }

  /**
   * sp_update_booking_status's writes when it lets a change through: booking
   * `id` gets status `st` (which differs from its current one) and its slot is
   * freed on cancellation and marked 'booked' otherwise, a booking made active
   * having no active rival on its slot.
   */
  lemma StatusStepKeepsInvariant(d: Db, id: int, st: BookingStatus, now: int)
    requires Invariant(d) && FindBooking(d.bookings, id).Some? && FindBooking(d.bookings, id).value.status != st
    requires IsActive(st) ==>
               !OtherActiveOnSlot(SetBookingStatus(d.bookings, id, st, now), FindBooking(d.bookings, id).value.slotId, id)
    ensures Invariant(d.(bookings := SetBookingStatus(d.bookings, id, st, now),
                         slots := SetSlotStatus(d.slots, FindBooking(d.bookings, id).value.slotId,
                                                if st == Cancelled then Free else Booked)))
  {
    var slotId := FindBooking(d.bookings, id).value.slotId;
    var k := Seqs.IndexOfKey(d.bookings, BookingKey, id).value;
    FindBookingOfRow(d.bookings, k);
    assert d.bookings[k].id == id && d.bookings[k].slotId == slotId;
    var bs := SetBookingStatus(d.bookings, id, st, now);
    var newStatus := if st == Cancelled then Free else Booked;
    var slots' := SetSlotStatus(d.slots, slotId, newStatus);
    SetBookingStatusKeepsReferences(d.advisors, d.slots, d.bookings, d.emailLogs, id, st, now, d.bookingSeq);
    if st == Cancelled {
      CancelKeepsActiveInvariant(d.bookings, d.slots, k, now);
    } else {
      ActivateKeepsActiveInvariant(d.bookings, d.slots, k, st, now);
    }
    assert OneActivePerSlot(bs) && ActiveHoldSlots(bs, slots');
    SetSlotStatusKeepsReferences(d.advisors, d.slots, bs, slotId, newStatus);
    SetSlotStatusKeepsKeys(d.slots, slotId, newStatus, d.slotSeq);
  }

  /** Appending an e-mail log row with the next id for an existing booking. */
  lemma LogStepKeepsInvariant(d: Db, l: EmailLog)
    requires Invariant(d) && l.id == d.emailLogSeq + 1 && FindBooking(d.bookings, l.bookingId).Some?
    ensures Invariant(d.(emailLogs := d.emailLogs + [l], emailLogSeq := l.id))
  {
    SerialAppend(d.emailLogs, EmailLogKey, d.emailLogSeq, l);
    LogAppendKeepsConsistent(d.advisors, d.slots, d.bookings, d.emailLogs, d.admins, l);
  }

  /** Drawing values from the sequences without inserting rows (a failed INSERT). */
  lemma SkipKeepsInvariant(d: Db, slotDraws: nat, logDraws: nat)
    requires Invariant(d)
    ensures Invariant(d.(slotSeq := d.slotSeq + slotDraws, emailLogSeq := d.emailLogSeq + logDraws))
  {
  }

  /** Appending an advisor with the next id. */
  lemma AdvisorStepKeepsInvariant(d: Db, a: Advisor)
    requires Invariant(d) && a.id == d.advisorSeq + 1
    ensures Invariant(d.(advisors := d.advisors + [a], advisorSeq := a.id))
  {
    SerialAppend(d.advisors, AdvisorKey, d.advisorSeq, a);
    AdvisorAppendKeepsReferences(d.advisors, d.slots, d.bookings, a);
  }

  /** Appending a slot with the next id, a known advisor and an unused (advisor, start, end). */
  lemma SlotStepKeepsInvariant(d: Db, s: TimeSlot)
    requires Invariant(d) && s.id == d.slotSeq + 1
    requires FindAdvisor(d.advisors, s.advisorId).Some? && !SlotTaken(d.slots, s.advisorId, s.startUtc, s.endUtc)
    ensures Invariant(d.(slots := d.slots + [s], slotSeq := s.id))
  {
    SerialAppend(d.slots, SlotKey, d.slotSeq, s);
    SlotAppendKeepsConsistent(d.advisors, d.slots, d.bookings, d.emailLogs, d.admins, s);
  }

  /** Appending an admin with the next id and an e-mail no admin has. */
  lemma AdminStepKeepsInvariant(d: Db, a: Admin)
    requires Invariant(d) && a.id == d.adminSeq + 1 && FindAdminByEmail(d.admins, a.email).None?
    ensures Invariant(d.(admins := d.admins + [a], adminSeq := a.id))
  {
    SerialAppend(d.admins, AdminKey, d.adminSeq, a);
    AdminAppendKeepsConsistent(d.advisors, d.slots, d.bookings, d.emailLogs, d.admins, a);
  }
}
