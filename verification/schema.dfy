/**
 * The rows of the booking database (tables advisors, time_slots, bookings,
 * email_logs and admins) and the reply of a stored procedure.
 *
 * The CHECK constraints of the DDL become enumerations: a slot status is one of
 * free/booked/blocked, a booking status one of confirmed/cancelled/completed, an
 * e-mail type one of confirmation/reminder_24h/reminder_1h and an e-mail status
 * one of pending/sent/failed.  Timestamps are integer seconds.
 */
module Schema {
  import opened Common

  datatype SlotStatus = Free | Booked | Blocked
  datatype BookingStatus = Confirmed | Cancelled | Completed
  datatype EmailType = Confirmation | Reminder24h | Reminder1h
  datatype EmailStatus = Pending | Sent | Failed

  /** The column default of time_slots.status. */
  const DefaultSlotStatus := Free
  /** The column default of bookings.status. */
  const DefaultBookingStatus := Confirmed

  function SlotStatusName(s: SlotStatus): string {
    match s
    case Free => "free"
    case Booked => "booked"
    case Blocked => "blocked"
  }

  function BookingStatusName(s: BookingStatus): string {
    match s
    case Confirmed => "confirmed"
    case Cancelled => "cancelled"
    case Completed => "completed"
  }

  function EmailTypeName(t: EmailType): string {
    match t
    case Confirmation => "confirmation"
    case Reminder24h => "reminder_24h"
    case Reminder1h => "reminder_1h"
  }

  function EmailStatusName(s: EmailStatus): string {
    match s
    case Pending => "pending"
    case Sent => "sent"
    case Failed => "failed"
  }

  /** `s IN ('confirmed', 'cancelled', 'completed')`, compared case-sensitively. */
  function ParseBookingStatus(s: string): (r: Option<BookingStatus>)
    ensures r.Some? <==> s in {"confirmed", "cancelled", "completed"}
    ensures r.Some? ==> BookingStatusName(r.value) == s
  {
    if s == "confirmed" then Some(Confirmed)
    else if s == "cancelled" then Some(Cancelled)
    else if s == "completed" then Some(Completed)
    else None
  }

  /** Parsing the name of a status gives the status back. */
  lemma BookingStatusRoundTrip(s: BookingStatus)
    ensures ParseBookingStatus(BookingStatusName(s)) == Some(s)
  {
  }

  /** Confirmed and completed bookings hold their slot; cancelled ones do not. */
  predicate IsActive(s: BookingStatus) {
    s == Confirmed || s == Completed
  }

  datatype Advisor = Advisor(id: int, name: string, timezone: string)

  /** A slot covers the half-open interval [startUtc, endUtc). */
  datatype TimeSlot = TimeSlot(id: int, advisorId: int, startUtc: int, endUtc: int, status: SlotStatus)

  datatype Booking = Booking(
    id: int,
    slotId: int,
    advisorId: int,
    clientName: string,
    clientEmail: string,
    status: BookingStatus,
    createdAt: int,
    updatedAt: int)

  datatype EmailLog = EmailLog(
    id: int,
    bookingId: int,
    kind: EmailType,
    status: EmailStatus,
    attempts: int,
    sentAt: Option<int>,
    errorMessage: Option<string>,
    createdAt: int)

  datatype Admin = Admin(id: int, email: string, passwordHash: string)

  /**
   * What every procedure returns: `{sql_err: '0', sql_msn, data}` on success and
   * `{sql_err: SQLSTATE, sql_msn: SQLERRM}` from its EXCEPTION WHEN OTHERS block.
   */
  datatype SpReply<+T> = SpOk(message: string, data: T) | SpError(sqlState: string, message: string)

  /** SQLSTATE of `RAISE EXCEPTION` without an explicit code. */
  const RaiseException := "P0001"
  /** SQLSTATE of a NOT NULL violation. */
  const NotNullViolation := "23502"
  /** SQLSTATE of a foreign-key violation. */
  const ForeignKeyViolation := "23503"
  /** SQLSTATE of a UNIQUE violation. */
  const UniqueViolation := "23505"

  /** The reply of `RAISE EXCEPTION msg` caught by the procedure's handler. */
  function Raise<T>(msg: string): (r: SpReply<T>)
    ensures r.SpError? && r.sqlState == RaiseException && r.message == msg
  {
    SpError(RaiseException, msg)
  }
}
