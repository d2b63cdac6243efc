/**
 * The five tables of the booking database as sequences of rows in heap order,
 * the primary-key lookups and `UPDATE ... WHERE id = x` statements the stored
 * procedures run on them, and the constraints of the DDL together with the
 * invariant the procedures keep: at most one active booking per slot, and the
 * slot of every active booking marked 'booked'.
 */
module Tables {
  import opened Common
  import opened Schema
  import Seqs

  /**
   * The contents of the database at one moment: the five tables and the last
   * value drawn from each table's SERIAL sequence.
   */
  datatype Db = Db(
    advisors: seq<Advisor>,
    slots: seq<TimeSlot>,
    bookings: seq<Booking>,
    emailLogs: seq<EmailLog>,
    admins: seq<Admin>,
    advisorSeq: int,
    slotSeq: int,
    bookingSeq: int,
    emailLogSeq: int,
    adminSeq: int)

  function AdvisorKey(a: Advisor): int { a.id }
  function SlotKey(s: TimeSlot): int { s.id }
  function BookingKey(b: Booking): int { b.id }
  function EmailLogKey(l: EmailLog): int { l.id }
  function AdminKey(a: Admin): int { a.id }

  // ----------------------------------------------------------------- lookups

  /** `SELECT ... FROM advisors WHERE id = x` */
  function FindAdvisor(advisors: seq<Advisor>, id: int): (r: Option<Advisor>)
    ensures r.Some? ==> r.value in advisors && r.value.id == id
    ensures r.None? <==> forall i :: 0 <= i < |advisors| ==> advisors[i].id != id
  {
    match Seqs.IndexOfKey(advisors, AdvisorKey, id)
    case None => None
    case Some(i) => Some(advisors[i])
  }

  /** `SELECT ... FROM time_slots WHERE id = x` */
  function FindSlot(slots: seq<TimeSlot>, id: int): (r: Option<TimeSlot>)
    ensures r.Some? ==> r.value in slots && r.value.id == id
    ensures r.None? <==> forall i :: 0 <= i < |slots| ==> slots[i].id != id
  {
    match Seqs.IndexOfKey(slots, SlotKey, id)
    case None => None
    case Some(i) => Some(slots[i])
  }

  /** `SELECT ... FROM bookings WHERE id = x` */
  function FindBooking(bookings: seq<Booking>, id: int): (r: Option<Booking>)
    ensures r.Some? ==> r.value in bookings && r.value.id == id
    ensures r.None? <==> forall i :: 0 <= i < |bookings| ==> bookings[i].id != id
  {
    match Seqs.IndexOfKey(bookings, BookingKey, id)
    case None => None
    case Some(i) => Some(bookings[i])
  }

  /** `SELECT ... FROM admins WHERE email = e` */
  function FindAdminByEmail(admins: seq<Admin>, email: string): (r: Option<Admin>)
    ensures r.Some? ==> r.value in admins && r.value.email == email
    ensures r.None? <==> forall i :: 0 <= i < |admins| ==> admins[i].email != email
  {
    if admins == [] then None
    else if admins[|admins| - 1].email == email then Some(admins[|admins| - 1])
    else FindAdminByEmail(admins[..|admins| - 1], email)
  }

  /** With unique ids, the lookup of a row's id finds that very row. */
  lemma FindSlotOfRow(slots: seq<TimeSlot>, i: int)
    requires Seqs.KeysUnique(slots, SlotKey) && 0 <= i < |slots|
    ensures FindSlot(slots, slots[i].id) == Some(slots[i])
  {
    Seqs.IndexOfKeyUnique(slots, SlotKey, i);
  }

  lemma FindBookingOfRow(bookings: seq<Booking>, i: int)
    requires Seqs.KeysUnique(bookings, BookingKey) && 0 <= i < |bookings|
    ensures FindBooking(bookings, bookings[i].id) == Some(bookings[i])
  {
    Seqs.IndexOfKeyUnique(bookings, BookingKey, i);
  }

  /** With unique e-mails, looking up an admin's e-mail finds that admin. */
  lemma {:induction false} FindAdminOfRow(admins: seq<Admin>, i: int)
    requires AdminEmailsUnique(admins) && 0 <= i < |admins|
    ensures FindAdminByEmail(admins, admins[i].email) == Some(admins[i])
    decreases |admins|
  {
    if i < |admins| - 1 {
      var init := admins[..|admins| - 1];
      assert init[i] == admins[i];
      FindAdminOfRow(init, i);
    }
  }

  // ----------------------------------------------------------------- updates

  /** `UPDATE time_slots SET status = st WHERE id = x` */
  function SetSlotStatus(slots: seq<TimeSlot>, id: int, st: SlotStatus): (r: seq<TimeSlot>)
    ensures |r| == |slots|
    ensures forall i :: 0 <= i < |r| ==>
              r[i] == if slots[i].id == id then slots[i].(status := st) else slots[i]
  {
    seq(|slots|, i requires 0 <= i < |slots| =>
      if slots[i].id == id then slots[i].(status := st) else slots[i])
  }

  /** `UPDATE bookings SET status = st, updated_at = now WHERE id = x` */
  function SetBookingStatus(bookings: seq<Booking>, id: int, st: BookingStatus, now: int): (r: seq<Booking>)
    ensures |r| == |bookings|
    ensures forall i :: 0 <= i < |r| ==>
              r[i] == if bookings[i].id == id then bookings[i].(status := st, updatedAt := now) else bookings[i]
  {
    seq(|bookings|, i requires 0 <= i < |bookings| =>
      if bookings[i].id == id then bookings[i].(status := st, updatedAt := now) else bookings[i])
  }

  /** After the update, the slot looked up by `id` has the new status; every other lookup is unchanged. */
  lemma FindSlotAfterSet(slots: seq<TimeSlot>, id: int, st: SlotStatus, k: int)
    ensures FindSlot(SetSlotStatus(slots, id, st), k)
         == if k == id && FindSlot(slots, id).Some? then Some(FindSlot(slots, id).value.(status := st))
            else FindSlot(slots, k)
  {
    var r := SetSlotStatus(slots, id, st);
    Seqs.IndexOfKeySameKeys(r, SlotKey, slots, SlotKey, k);
  }

  /** After the update, the booking looked up by `id` has the new status; every other lookup is unchanged. */
  lemma FindBookingAfterSet(bookings: seq<Booking>, id: int, st: BookingStatus, now: int, k: int)
    ensures FindBooking(SetBookingStatus(bookings, id, st, now), k)
         == if k == id && FindBooking(bookings, id).Some?
            then Some(FindBooking(bookings, id).value.(status := st, updatedAt := now))
            else FindBooking(bookings, k)
  {
    var r := SetBookingStatus(bookings, id, st, now);
    Seqs.IndexOfKeySameKeys(r, BookingKey, bookings, BookingKey, k);
  }

  lemma FindAdvisorAfterAppend(advisors: seq<Advisor>, a: Advisor, k: int)
    ensures FindAdvisor(advisors + [a], k) == if a.id == k then Some(a) else FindAdvisor(advisors, k)
  {
    Seqs.IndexOfKeyAppend(advisors, a, AdvisorKey, k);
  }

  lemma FindSlotAfterAppend(slots: seq<TimeSlot>, s: TimeSlot, k: int)
    ensures FindSlot(slots + [s], k) == if s.id == k then Some(s) else FindSlot(slots, k)
  {
    Seqs.IndexOfKeyAppend(slots, s, SlotKey, k);
  }

  lemma FindBookingAfterAppend(bookings: seq<Booking>, b: Booking, k: int)
    ensures FindBooking(bookings + [b], k) == if b.id == k then Some(b) else FindBooking(bookings, k)
  {
    Seqs.IndexOfKeyAppend(bookings, b, BookingKey, k);
  }

  /**
   * `EXISTS (SELECT 1 FROM email_logs WHERE booking_id = b AND type = t AND status = 'sent')`
   */
  predicate HasSentLog(logs: seq<EmailLog>, bookingId: int, kind: EmailType) {
    exists i :: 0 <= i < |logs| && logs[i].bookingId == bookingId && logs[i].kind == kind && logs[i].status == Sent
  }

  /** A 'sent' row is in a concatenation of log tables iff it is in one of them. */
  lemma HasSentLogAppend(logs: seq<EmailLog>, added: seq<EmailLog>, bookingId: int, kind: EmailType)
    ensures HasSentLog(logs + added, bookingId, kind) <==> HasSentLog(logs, bookingId, kind) || HasSentLog(added, bookingId, kind)
  {
    var all := logs + added;
    if HasSentLog(all, bookingId, kind) {
      var i :| 0 <= i < |all| && all[i].bookingId == bookingId && all[i].kind == kind && all[i].status == Sent;
      if i >= |logs| {
        assert added[i - |logs|] == all[i];
      }
    }
    if HasSentLog(logs, bookingId, kind) {
      var i :| 0 <= i < |logs| && logs[i].bookingId == bookingId && logs[i].kind == kind && logs[i].status == Sent;
      assert all[i] == logs[i];
    }
    if HasSentLog(added, bookingId, kind) {
      var i :| 0 <= i < |added| && added[i].bookingId == bookingId && added[i].kind == kind && added[i].status == Sent;
      assert all[|logs| + i] == added[i];
    }
  }

  // ------------------------------------------------------------- constraints

  /** A SERIAL primary key: unique, and every id was handed out by the sequence (1..last). */
  predicate SerialKeys<T>(s: seq<T>, key: T -> int, last: int) {
    && 0 <= last
    && Seqs.KeysUnique(s, key)
    && (forall i :: 0 <= i < |s| ==> 1 <= key(s[i]) <= last)
  }

  /** Appending a row with the next value of the sequence keeps the key a SERIAL key. */
  lemma SerialAppend<T>(s: seq<T>, key: T -> int, last: int, v: T)
    requires SerialKeys(s, key, last) && key(v) == last + 1
    ensures SerialKeys(s + [v], key, last + 1)
  {
    assert forall i :: 0 <= i < |s| ==> (s + [v])[i] == s[i];
  }

  /** Drawing a value from the sequence without inserting a row keeps the key a SERIAL key. */
  lemma SerialSkip<T>(s: seq<T>, key: T -> int, last: int)
    requires SerialKeys(s, key, last)
    ensures SerialKeys(s, key, last + 1)
  {
  }

  /** A status update keeps every id, so the SERIAL key stays one. */
  lemma SetSlotStatusKeepsKeys(slots: seq<TimeSlot>, id: int, st: SlotStatus, last: int)
    requires SerialKeys(slots, SlotKey, last)
    ensures SerialKeys(SetSlotStatus(slots, id, st), SlotKey, last)
  {
    var r := SetSlotStatus(slots, id, st);
    assert forall i :: 0 <= i < |r| ==> SlotKey(r[i]) == SlotKey(slots[i]);
  }

  /** The time_slots.advisor_id foreign key. */
  predicate SlotsHaveAdvisors(slots: seq<TimeSlot>, advisors: seq<Advisor>) {
    forall i :: 0 <= i < |slots| ==> FindAdvisor(advisors, slots[i].advisorId).Some?
  }

  /**
   * The bookings.slot_id and bookings.advisor_id foreign keys, and the advisor
   * of a booking being the advisor of its slot (the procedure copies it).
   */
  predicate BookingsHaveSlots(bookings: seq<Booking>, slots: seq<TimeSlot>, advisors: seq<Advisor>) {
    forall i :: 0 <= i < |bookings| ==>
      && FindSlot(slots, bookings[i].slotId).Some?
      && FindSlot(slots, bookings[i].slotId).value.advisorId == bookings[i].advisorId
      && FindAdvisor(advisors, bookings[i].advisorId).Some?
  }

  /** The email_logs.booking_id foreign key. */
  predicate LogsHaveBookings(logs: seq<EmailLog>, bookings: seq<Booking>) {
    forall i :: 0 <= i < |logs| ==> FindBooking(bookings, logs[i].bookingId).Some?
  }

  /** UNIQUE(advisor_id, start_utc, end_utc) on time_slots. */
  predicate SlotTriplesUnique(slots: seq<TimeSlot>) {
    forall i, j :: 0 <= i < j < |slots| ==>
      (slots[i].advisorId, slots[i].startUtc, slots[i].endUtc) != (slots[j].advisorId, slots[j].startUtc, slots[j].endUtc)
  }

  /** UNIQUE(email) on admins. */
  predicate AdminEmailsUnique(admins: seq<Admin>) {
    forall i, j :: 0 <= i < j < |admins| ==> admins[i].email != admins[j].email
  }

  /** At most one confirmed or completed booking per slot. */
  predicate OneActivePerSlot(bookings: seq<Booking>) {
    forall i, j :: 0 <= i < j < |bookings| && bookings[i].slotId == bookings[j].slotId ==>
      !(IsActive(bookings[i].status) && IsActive(bookings[j].status))
  }

  /** The slot of every confirmed or completed booking is marked 'booked'. */
  predicate ActiveHoldSlots(bookings: seq<Booking>, slots: seq<TimeSlot>) {
    forall i :: 0 <= i < |bookings| && IsActive(bookings[i].status) ==>
      FindSlot(slots, bookings[i].slotId).Some? && FindSlot(slots, bookings[i].slotId).value.status == Booked
  }

  /**
   * `EXISTS (SELECT 1 FROM bookings b2 WHERE b2.slot_id = slot AND b2.id != id
   *  AND b2.status IN ('confirmed', 'completed'))`
   */
  function OtherActiveOnSlot(bookings: seq<Booking>, slot: int, id: int): (r: bool)
    ensures r <==> exists i :: 0 <= i < |bookings| && IsActiveRival(bookings[i], slot, id)
  {
    if bookings == [] then false
    else
      var last := bookings[|bookings| - 1];
      IsActiveRival(last, slot, id) || OtherActiveOnSlot(bookings[..|bookings| - 1], slot, id)
  }

  predicate IsActiveRival(b: Booking, slot: int, id: int) {
    b.slotId == slot && b.id != id && IsActive(b.status)
  }

  /** A slot with this (advisor, start, end) already exists: inserting it would violate the UNIQUE constraint. */
  predicate SlotTaken(slots: seq<TimeSlot>, advisorId: int, startUtc: int, endUtc: int) {
    exists i :: 0 <= i < |slots| && SameTriple(slots[i], advisorId, startUtc, endUtc)
  }

  predicate SameTriple(s: TimeSlot, advisorId: int, startUtc: int, endUtc: int) {
    s.advisorId == advisorId && s.startUtc == startUtc && s.endUtc == endUtc
  }
}
