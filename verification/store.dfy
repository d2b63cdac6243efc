/**
 * The booking database as an object whose tables the mutating stored
 * procedures change in place: sp_create_booking, sp_update_booking_status,
 * sp_resend_email and sp_create_admin, plus the plain INSERTs (with the DDL's
 * foreign-key and UNIQUE checks) that fill advisors, time_slots and email_logs.
 *
 * Each procedure runs as one atomic step.  Its EXCEPTION WHEN OTHERS block
 * undoes every change the procedure made and returns the SQLSTATE and message
 * of the error; the only thing an error does not undo is a value already drawn
 * from a SERIAL sequence.
 */
module BookingStore {
  import opened Common
  import opened Schema
  import opened Tables
  import opened BookingInvariants
  import Text
  import EmailPattern
  import Seqs

  // ------------------------------------------------------------- messages

  const MsgInvalidSlotId := "Error: ID de slot inválido."
  const MsgInvalidClientName := "Error: Nombre del cliente inválido."
  const MsgInvalidClientEmail := "Error: Email del cliente inválido."
  const MsgBadEmailFormat := "Error: Formato de email inválido."
  const MsgSlotNotFound := "Error: Slot no encontrado."
  const MsgSlotUnavailable := "Error: Slot no disponible."
  const MsgBookingCreated := "Reserva creada exitosamente"
  const MsgInvalidBookingId := "Error: ID de reserva inválido."
  const MsgInvalidBookingStatus := "Error: Estado de reserva inválido."
  const MsgBookingNotFound := "Error: Reserva no encontrada."
  const MsgSlotTaken := "Error: No se puede confirmar la reserva. El slot ya está ocupado por otra reserva activa."
  const MsgStatusUpdated := "Estado de reserva actualizado exitosamente"
  const MsgNullStatus := "null value in column \"status\" of relation \"bookings\" violates not-null constraint"
  const MsgEmailQueued := "Email programado para reenvío"
  const MsgInvalidEmail := "Error: Email inválido."
  const MsgInvalidPasswordHash := "Error: Hash de contraseña inválido."
  const MsgEmailTaken := "Error: El email ya está registrado."
  const MsgAdminCreated := "Admin creado exitosamente"
  const MsgSlotAdvisorFk := "insert or update on table \"time_slots\" violates foreign key constraint \"time_slots_advisor_id_fkey\""
  const MsgSlotTripleUnique := "duplicate key value violates unique constraint \"time_slots_advisor_id_start_utc_end_utc_key\""
  const MsgLogBookingFk := "insert or update on table \"email_logs\" violates foreign key constraint \"email_logs_booking_id_fkey\""

  /** The message raised when the new status equals the current one (`%` replaced by the status). */
  function SameStatusMessage(status: string): string {
    "Error: El estado de la reserva ya es " + status + ". No se puede cambiar al mismo estado."
  }

  // ------------------------------------------------------------ replies

  datatype BookingCreated = BookingCreated(bookingId: int, clientName: string, clientEmail: string,
                                           status: BookingStatus, createdAt: int)
  datatype StatusChanged = StatusChanged(bookingId: int, newStatus: string, previousStatus: string)
  datatype EmailQueued = EmailQueued(bookingId: int, status: EmailStatus)
  datatype AdminCreated = AdminCreated(adminId: int, email: string)

  /** `COALESCE(s, '')` */
  function Coalesce(s: Option<string>): string {
    if s.Some? then s.value else ""
  }

  /** `COALESCE(id, 0) = 0`: a missing or zero id. */
  predicate IsNullOrZero(id: Option<int>) {
    id.None? || id.value == 0
  }

  // ------------------------------------------------------- input checks

  /**
   * The first of sp_create_booking's input checks that fails, if any.  These
   * run before any table is read: slot id, client name, client e-mail (blank
   * after trimming), then the e-mail pattern on the untrimmed string.
   */
  function CreateBookingInputError(slotId: Option<int>, clientName: Option<string>, clientEmail: Option<string>)
    : (r: Option<string>)
    ensures r.None? <==> && !IsNullOrZero(slotId)
                         && !Text.AllSpaces(Coalesce(clientName))
                         && clientEmail.Some? && EmailPattern.MatchesEmailPattern(clientEmail.value)
    ensures IsNullOrZero(slotId) ==> r == Some(MsgInvalidSlotId)
    ensures !IsNullOrZero(slotId) && Text.AllSpaces(Coalesce(clientName)) ==> r == Some(MsgInvalidClientName)
    ensures !IsNullOrZero(slotId) && !Text.AllSpaces(Coalesce(clientName)) && Text.AllSpaces(Coalesce(clientEmail))
            ==> r == Some(MsgInvalidClientEmail)
    ensures clientEmail.Some? && !Text.AllSpaces(clientEmail.value) && !EmailPattern.MatchesEmailPattern(clientEmail.value)
            && !IsNullOrZero(slotId) && !Text.AllSpaces(Coalesce(clientName))
            ==> r == Some(MsgBadEmailFormat)
  {
    Text.BlankIffAllSpaces(Coalesce(clientName));
    Text.BlankIffAllSpaces(Coalesce(clientEmail));
    EmailCheckFacts(Coalesce(clientEmail));
    if IsNullOrZero(slotId) then Some(MsgInvalidSlotId)
    else if Text.IsBlank(Coalesce(clientName)) then Some(MsgInvalidClientName)
    else if Text.IsBlank(Coalesce(clientEmail)) then Some(MsgInvalidClientEmail)
    else if !EmailPattern.EmailFormatOk(clientEmail.value) then Some(MsgBadEmailFormat)
    else None
  }

  /** The scanner decides the pattern, and a string the pattern accepts is not blank. */
  lemma EmailCheckFacts(email: string)
    ensures EmailPattern.EmailFormatOk(email) <==> EmailPattern.MatchesEmailPattern(email)
    ensures EmailPattern.MatchesEmailPattern(email) ==> !Text.AllSpaces(email)
  {
    EmailPattern.EmailFormatOkIffPattern(email);
    if EmailPattern.MatchesEmailPattern(email) {
      EmailPattern.MatchHasNoSpace(email);
    }
  }

  /**
   * An accepted e-mail has no surrounding spaces, so the stored
   * `LOWER(TRIM(email))` is the lower-cased input.
   */
  lemma StoredEmailIsLowered(email: string)
    requires EmailPattern.MatchesEmailPattern(email)
    ensures Text.Lower(Text.Trim(email)) == Text.Lower(email)
    ensures Text.HasNoUpper(Text.Lower(Text.Trim(email)))
  {
    EmailPattern.MatchHasNoSpace(email);
    Text.LowerIsLower(email);
  }

  /**
   * The first of sp_create_admin's input checks that fails, if any: an e-mail,
   * then a password hash, that is missing or made of spaces only.
   */
  function CreateAdminInputError(email: Option<string>, passwordHash: Option<string>): (r: Option<string>)
    ensures r.None? <==> !Text.AllSpaces(Coalesce(email)) && !Text.AllSpaces(Coalesce(passwordHash))
    ensures r.None? ==> email.Some? && passwordHash.Some?
    ensures Text.AllSpaces(Coalesce(email)) ==> r == Some(MsgInvalidEmail)
    ensures !Text.AllSpaces(Coalesce(email)) && Text.AllSpaces(Coalesce(passwordHash)) ==> r == Some(MsgInvalidPasswordHash)
  {
    Text.BlankIffAllSpaces(Coalesce(email));
    Text.BlankIffAllSpaces(Coalesce(passwordHash));
    if Text.IsBlank(Coalesce(email)) then Some(MsgInvalidEmail)
    else if Text.IsBlank(Coalesce(passwordHash)) then Some(MsgInvalidPasswordHash)
    else None
  }

  /** `vp_status NOT IN ('confirmed', 'cancelled', 'completed')` is true (NULL is not rejected here). */
  predicate StatusRejected(status: Option<string>) {
    status.Some? && ParseBookingStatus(status.value).None?
  }

  // ------------------------------------------------ status update, as a value

  /**
   * sp_update_booking_status on tables `d`: the reply, and the tables after
   * the call (the same tables on every error, the rollback undoing the
   * UPDATE of bookings when the slot is taken).
   */
  function StatusUpdate(d: Db, bookingId: Option<int>, status: Option<string>, now: int): (SpReply<StatusChanged>, Db) {
    if IsNullOrZero(bookingId) then (Raise(MsgInvalidBookingId), d)
    else if StatusRejected(status) then (Raise(MsgInvalidBookingStatus), d)
    else
      match FindBooking(d.bookings, bookingId.value)
      case None => (Raise(MsgBookingNotFound), d)
      case Some(current) =>
        if status.None? then (SpError(NotNullViolation, MsgNullStatus), d)
        else if BookingStatusName(current.status) == status.value then (Raise(SameStatusMessage(status.value)), d)
        else
          var st := ParseBookingStatus(status.value).value;
          var bs := SetBookingStatus(d.bookings, bookingId.value, st, now);
          if IsActive(st) && OtherActiveOnSlot(bs, current.slotId, bookingId.value) then (Raise(MsgSlotTaken), d)
          else
            (SpOk(MsgStatusUpdated, StatusChanged(bookingId.value, status.value, BookingStatusName(current.status))),
             d.(bookings := bs, slots := SetSlotStatus(d.slots, current.slotId, if st == Cancelled then Free else Booked)))
  }

  /**
   * The rejections of sp_update_booking_status, in the order it checks them:
   * a missing id, a status outside the three names, an unknown booking, a NULL
   * status (the NOT NULL violation), the current status again; every error
   * leaves the tables as they were.
   */
  lemma StatusUpdateRejections(d: Db, bookingId: Option<int>, status: Option<string>, now: int)
    ensures StatusUpdate(d, bookingId, status, now).0.SpError? ==> StatusUpdate(d, bookingId, status, now).1 == d
    ensures IsNullOrZero(bookingId) ==> StatusUpdate(d, bookingId, status, now).0 == Raise(MsgInvalidBookingId)
    ensures !IsNullOrZero(bookingId) && StatusRejected(status) ==>
              StatusUpdate(d, bookingId, status, now).0 == Raise(MsgInvalidBookingStatus)
    ensures !IsNullOrZero(bookingId) && !StatusRejected(status) && FindBooking(d.bookings, bookingId.value).None? ==>
              StatusUpdate(d, bookingId, status, now).0 == Raise(MsgBookingNotFound)
    ensures !IsNullOrZero(bookingId) && status.None? && FindBooking(d.bookings, bookingId.value).Some? ==>
              StatusUpdate(d, bookingId, status, now).0 == SpError(NotNullViolation, MsgNullStatus)
    ensures !IsNullOrZero(bookingId) && status.Some? && FindBooking(d.bookings, bookingId.value).Some?
            && BookingStatusName(FindBooking(d.bookings, bookingId.value).value.status) == status.value ==>
              StatusUpdate(d, bookingId, status, now).0 == Raise(SameStatusMessage(status.value))
  {
  }

  /**
   * A change to a new valid status succeeds exactly when it does not make a
   * second active booking on the slot (otherwise the slot-taken error); on
   * success only the booking's status and its slot's status change, the slot
   * becoming free on a cancellation and booked otherwise.
   */
  lemma StatusUpdateSuccess(d: Db, bookingId: Option<int>, status: Option<string>, now: int)
    ensures StatusUpdate(d, bookingId, status, now).0.SpOk? ==>
              && bookingId.Some? && status.Some? && ParseBookingStatus(status.value).Some?
              && FindBooking(d.bookings, bookingId.value).Some?
              && var current := FindBooking(d.bookings, bookingId.value).value;
                 var st := ParseBookingStatus(status.value).value;
                 var d1 := StatusUpdate(d, bookingId, status, now).1;
                 && current.status != st
                 && d1 == d.(bookings := SetBookingStatus(d.bookings, bookingId.value, st, now),
                             slots := SetSlotStatus(d.slots, current.slotId, if st == Cancelled then Free else Booked))
                 && (IsActive(st) ==> !OtherActiveOnSlot(d1.bookings, current.slotId, bookingId.value))
                 && StatusUpdate(d, bookingId, status, now).0
                    == SpOk(MsgStatusUpdated, StatusChanged(bookingId.value, status.value, BookingStatusName(current.status)))
    ensures !IsNullOrZero(bookingId) && status.Some? && ParseBookingStatus(status.value).Some?
            && FindBooking(d.bookings, bookingId.value).Some?
            && FindBooking(d.bookings, bookingId.value).value.status != ParseBookingStatus(status.value).value ==>
              && (StatusUpdate(d, bookingId, status, now).0.SpOk? <==>
                    (IsActive(ParseBookingStatus(status.value).value) ==>
                       !OtherActiveOnSlot(SetBookingStatus(d.bookings, bookingId.value, ParseBookingStatus(status.value).value, now),
                                          FindBooking(d.bookings, bookingId.value).value.slotId, bookingId.value)))
              && (StatusUpdate(d, bookingId, status, now).0.SpError? ==> StatusUpdate(d, bookingId, status, now).0 == Raise(MsgSlotTaken))
  {
  }

  // ---------------------------------------------------------------- store

  class Store {
    /** Every table and every SERIAL sequence. */
    var db: Db

    /** Primary keys, foreign keys, UNIQUE constraints and the one-active-booking-per-slot invariant. */
    predicate Valid()
      reads this
    {
      Invariant(db)
    }

    /** Freshly created tables: empty, every sequence unused. */
    constructor()
      ensures Valid() && db == EmptyDb
    {
      db := EmptyDb;
      EmptyDbInvariant();
    }

    /** `INSERT INTO advisors (name, timezone)`: always succeeds and returns the new id. */
    method InsertAdvisor(name: string, timezone: string) returns (id: int)
      requires Valid()
      modifies this
      ensures Valid()
      ensures id == old(db.advisorSeq) + 1
      ensures db == old(db).(advisors := old(db.advisors) + [Advisor(id, name, timezone)], advisorSeq := id)
    {
      id := db.advisorSeq + 1;
      var a := Advisor(id, name, timezone);
      AdvisorStepKeepsInvariant(db, a);
      db := db.(advisors := db.advisors + [a], advisorSeq := a.id);
    }

    /**
     * `INSERT INTO time_slots (advisor_id, start_utc, end_utc, status)`: fails
     * with 23505 on a repeated (advisor, start, end) and with 23503 on an
     * unknown advisor; the id is drawn from the sequence either way.
     */
    method InsertSlot(advisorId: int, startUtc: int, endUtc: int, status: SlotStatus) returns (r: Result<int>)
      requires Valid()
      modifies this
      ensures Valid()
      ensures r.Ok? <==> FindAdvisor(old(db.advisors), advisorId).Some? && !SlotTaken(old(db.slots), advisorId, startUtc, endUtc)
      ensures SlotTaken(old(db.slots), advisorId, startUtc, endUtc) ==> r == Err(MsgSlotTripleUnique)
      ensures !SlotTaken(old(db.slots), advisorId, startUtc, endUtc) && FindAdvisor(old(db.advisors), advisorId).None?
              ==> r == Err(MsgSlotAdvisorFk)
      ensures r.Ok? ==> && r.value == old(db.slotSeq) + 1
                        && db == old(db).(slots := old(db.slots) + [TimeSlot(r.value, advisorId, startUtc, endUtc, status)],
                                          slotSeq := r.value)
      ensures r.Err? ==> db == old(db).(slotSeq := old(db.slotSeq) + 1)
    {
      var id := db.slotSeq + 1;
      if SlotTaken(db.slots, advisorId, startUtc, endUtc) {
        SkipKeepsInvariant(db, 1, 0);
        db := db.(slotSeq := db.slotSeq + 1);
        return Err(MsgSlotTripleUnique);
      }
      if FindAdvisor(db.advisors, advisorId).None? {
        SkipKeepsInvariant(db, 1, 0);
        db := db.(slotSeq := db.slotSeq + 1);
        return Err(MsgSlotAdvisorFk);
      }
      var s := TimeSlot(id, advisorId, startUtc, endUtc, status);
      SlotStepKeepsInvariant(db, s);
      db := db.(slots := db.slots + [s], slotSeq := s.id);
      r := Ok(id);
    }

    /**
     * `INSERT INTO email_logs (booking_id, type, status, error_message, sent_at)`
     * with attempts left at its default 0: fails with 23503 when the booking
     * does not exist; the id is drawn from the sequence either way.
     */
    method InsertEmailLog(bookingId: int, kind: EmailType, status: EmailStatus,
                          errorMessage: Option<string>, sentAt: Option<int>, now: int)
      returns (r: Result<int>)
      requires Valid()
      modifies this
      ensures Valid()
      ensures r.Ok? <==> FindBooking(old(db.bookings), bookingId).Some?
      ensures r.Ok? ==> && r.value == old(db.emailLogSeq) + 1
                        && db == old(db).(emailLogs := old(db.emailLogs) + [EmailLog(r.value, bookingId, kind, status, 0,
                                                                                     sentAt, errorMessage, now)],
                                          emailLogSeq := r.value)
      ensures r.Err? ==> r.error == MsgLogBookingFk && db == old(db).(emailLogSeq := old(db.emailLogSeq) + 1)
    {
      if FindBooking(db.bookings, bookingId).None? {
        SkipKeepsInvariant(db, 0, 1);
        db := db.(emailLogSeq := db.emailLogSeq + 1);
        return Err(MsgLogBookingFk);
      }
      var l := EmailLog(db.emailLogSeq + 1, bookingId, kind, status, 0, sentAt, errorMessage, now);
      LogStepKeepsInvariant(db, l);
      db := db.(emailLogs := db.emailLogs + [l], emailLogSeq := l.id);
      r := Ok(l.id);
    }

    /** sp_create_booking */
    method CreateBooking(slotId: Option<int>, clientName: Option<string>, clientEmail: Option<string>, now: int)
      returns (r: SpReply<BookingCreated>)
      requires Valid()
      modifies this
      ensures Valid()
      ensures CreateBookingInputError(slotId, clientName, clientEmail).Some? ==>
                r == Raise(CreateBookingInputError(slotId, clientName, clientEmail).value)
      ensures CreateBookingInputError(slotId, clientName, clientEmail).None? && FindSlot(old(db.slots), slotId.value).None? ==>
                r == Raise(MsgSlotNotFound)
      ensures CreateBookingInputError(slotId, clientName, clientEmail).None? && FindSlot(old(db.slots), slotId.value).Some?
              && FindSlot(old(db.slots), slotId.value).value.status != Free ==>
                r == Raise(MsgSlotUnavailable)
      ensures r.SpError? ==> db == old(db)
      ensures r.SpOk? <==> && CreateBookingInputError(slotId, clientName, clientEmail).None?
                           && FindSlot(old(db.slots), slotId.value).Some?
                           && FindSlot(old(db.slots), slotId.value).value.status == Free
      ensures r.SpOk? ==>
                var slot := FindSlot(old(db.slots), slotId.value).value;
                var id := old(db.bookingSeq) + 1;
                && db == old(db).(bookings := old(db.bookings) + [Booking(id, slot.id, slot.advisorId,
                                                                          Text.Trim(clientName.value),
                                                                          Text.Lower(Text.Trim(clientEmail.value)),
                                                                          Confirmed, now, now)],
                                  slots := SetSlotStatus(old(db.slots), slot.id, Booked),
                                  emailLogs := old(db.emailLogs) + [EmailLog(old(db.emailLogSeq) + 1, id, Confirmation,
                                                                             Pending, 0, None, None, now)],
                                  bookingSeq := id,
                                  emailLogSeq := old(db.emailLogSeq) + 1)
                && r == SpOk(MsgBookingCreated, BookingCreated(id, clientName.value, clientEmail.value, Confirmed, now))
    {
      var inputError := CreateBookingInputError(slotId, clientName, clientEmail);
      if inputError.Some? {
        return Raise(inputError.value);
      }
      var slot := FindSlot(db.slots, slotId.value);
      if slot.None? {
        return Raise(MsgSlotNotFound);
      }
      if slot.value.status != Free {
        return Raise(MsgSlotUnavailable);
      }
      var s := slot.value;
      var b := Booking(db.bookingSeq + 1, s.id, s.advisorId, Text.Trim(clientName.value),
                       Text.Lower(Text.Trim(clientEmail.value)), DefaultBookingStatus, now, now);
      var l := EmailLog(db.emailLogSeq + 1, b.id, Confirmation, Pending, 0, None, None, now);
      BookStepKeepsInvariant(db, s, b, l);
      db := db.(bookings := db.bookings + [b], slots := SetSlotStatus(db.slots, s.id, Booked),
                emailLogs := db.emailLogs + [l], bookingSeq := b.id, emailLogSeq := l.id);
      r := SpOk(MsgBookingCreated, BookingCreated(b.id, clientName.value, clientEmail.value, Confirmed, now));
    }

    /** sp_update_booking_status: the reply and the tables StatusUpdate describes. */
    method UpdateBookingStatus(bookingId: Option<int>, status: Option<string>, now: int)
      returns (r: SpReply<StatusChanged>)
      requires Valid()
      modifies this
      ensures Valid()
      ensures r == StatusUpdate(old(db), bookingId, status, now).0
      ensures db == StatusUpdate(old(db), bookingId, status, now).1
    {
      if IsNullOrZero(bookingId) {
        return Raise(MsgInvalidBookingId);
      }
      if StatusRejected(status) {
        return Raise(MsgInvalidBookingStatus);
      }
      var id := bookingId.value;
      var found := FindBooking(db.bookings, id);
      if found.None? {
        return Raise(MsgBookingNotFound);
      }
      var current := found.value;
      if status.None? {
        // the comparison with NULL is not true, and the UPDATE violates NOT NULL
        return SpError(NotNullViolation, MsgNullStatus);
      }
      if BookingStatusName(current.status) == status.value {
        return Raise(SameStatusMessage(status.value));
      }
      var st := ParseBookingStatus(status.value).value;
      var bs := SetBookingStatus(db.bookings, id, st, now);
      if IsActive(st) && OtherActiveOnSlot(bs, current.slotId, id) {
        // the UPDATE of bookings is rolled back with the raised exception
        return Raise(MsgSlotTaken);
      }
      StatusStepKeepsInvariant(db, id, st, now);
      db := db.(bookings := bs, slots := SetSlotStatus(db.slots, current.slotId, if st == Cancelled then Free else Booked));
      r := SpOk(MsgStatusUpdated, StatusChanged(id, status.value, BookingStatusName(current.status)));
    }

    /** sp_resend_email: queues a new pending confirmation row for an existing booking. */
    method ResendEmail(bookingId: Option<int>, now: int) returns (r: SpReply<EmailQueued>)
      requires Valid()
      modifies this
      ensures Valid()
      ensures IsNullOrZero(bookingId) ==> r == Raise(MsgInvalidBookingId)
      ensures !IsNullOrZero(bookingId) && FindBooking(old(db.bookings), bookingId.value).None? ==> r == Raise(MsgBookingNotFound)
      ensures r.SpError? ==> db == old(db)
      ensures r.SpOk? <==> !IsNullOrZero(bookingId) && FindBooking(old(db.bookings), bookingId.value).Some?
      ensures r.SpOk? ==>
                && db == old(db).(emailLogs := old(db.emailLogs) + [EmailLog(old(db.emailLogSeq) + 1, bookingId.value,
                                                                             Confirmation, Pending, 0, None, None, now)],
                                  emailLogSeq := old(db.emailLogSeq) + 1)
                && r == SpOk(MsgEmailQueued, EmailQueued(bookingId.value, Pending))
    {
      if IsNullOrZero(bookingId) {
        return Raise(MsgInvalidBookingId);
      }
      if FindBooking(db.bookings, bookingId.value).None? {
        return Raise(MsgBookingNotFound);
      }
      var l := EmailLog(db.emailLogSeq + 1, bookingId.value, Confirmation, Pending, 0, None, None, now);
      LogStepKeepsInvariant(db, l);
      db := db.(emailLogs := db.emailLogs + [l], emailLogSeq := l.id);
      r := SpOk(MsgEmailQueued, EmailQueued(bookingId.value, Pending));
    }

    /**
     * sp_create_admin: the e-mail is stored as `LOWER(TRIM(email))`, the hash
     * as given; a second admin with the same normalised e-mail is refused.
     */
    method CreateAdmin(email: Option<string>, passwordHash: Option<string>) returns (r: SpReply<AdminCreated>)
      requires Valid()
      modifies this
      ensures Valid()
      ensures CreateAdminInputError(email, passwordHash).Some? ==>
                r == Raise(CreateAdminInputError(email, passwordHash).value)
      ensures && CreateAdminInputError(email, passwordHash).None?
              && FindAdminByEmail(old(db.admins), NormalizedEmail(email.value)).Some?
              ==> r == Raise(MsgEmailTaken)
      ensures r.SpError? ==> db == old(db)
      ensures r.SpOk? <==> && CreateAdminInputError(email, passwordHash).None?
                           && FindAdminByEmail(old(db.admins), NormalizedEmail(email.value)).None?
      ensures r.SpOk? ==>
                var id := old(db.adminSeq) + 1;
                && db == old(db).(admins := old(db.admins) + [Admin(id, NormalizedEmail(email.value), passwordHash.value)],
                                  adminSeq := id)
                && r == SpOk(MsgAdminCreated, AdminCreated(id, NormalizedEmail(email.value)))
    {
      var inputError := CreateAdminInputError(email, passwordHash);
      if inputError.Some? {
        return Raise(inputError.value);
      }
      var normalized := NormalizedEmail(email.value);
      if FindAdminByEmail(db.admins, normalized).Some? {
        return Raise(MsgEmailTaken);
      }
      var a := Admin(db.adminSeq + 1, normalized, passwordHash.value);
      AdminStepKeepsInvariant(db, a);
      db := db.(admins := db.admins + [a], adminSeq := a.id);
      r := SpOk(MsgAdminCreated, AdminCreated(a.id, normalized));
    }
  }

  /** `LOWER(TRIM(email))`, the form in which admin e-mails are stored and looked up. */
  function NormalizedEmail(email: string): (r: string)
    ensures Text.HasNoUpper(r)
    ensures r == [] || (r[0] != ' ' && r[|r| - 1] != ' ')
    ensures |r| <= |email|
  {
    var t := Text.Trim(email);
    Text.LowerIsLower(t);
    Text.Lower(t)
  }

  /** Normalising twice is normalising once: a stored e-mail is found by its own normal form. */
  lemma NormalizedEmailIdempotent(email: string)
    ensures NormalizedEmail(NormalizedEmail(email)) == NormalizedEmail(email)
  {
    var r := NormalizedEmail(email);
    Text.TrimOfTrimmed(r);
    Text.LowerIsLower(Text.Trim(email));
  }
}
