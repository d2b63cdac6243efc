/**
 * The e-mail service: every message goes to the mail transport, and every
 * attempt is recorded in email_logs by updateEmailLog, which only ever
 * inserts. The transport is an oracle: each send is given the transport's
 * answer to its message.
 */
module Email {
  import opened Common
  import opened Schema
  import opened Tables
  import opened BookingStore

  /** The transport's answer to one message: delivered, or the message of the error it threw. */
  datatype Delivery = Delivered | Rejected(message: string)

  /** The row a mail is written from: a booking joined with its slot and its advisor. */
  datatype MailBooking = MailBooking(
    id: int,
    clientName: string,
    clientEmail: string,
    advisorName: string,
    startUtc: int,
    endUtc: int)

  /** A message handed to the transport: recipient, subject and the kind of e-mail. */
  datatype Mail = Mail(to: string, subject: string, kind: EmailType)

  const MsgResendNotFound := "Reserva no encontrada"

  function ConfirmationSubject(advisorName: string): string {
    "Confirmación de cita - " + advisorName
  }

  function ReminderSubject(advisorName: string): string {
    "Recordatorio de cita - " + advisorName
  }

  /** The lead time the reminder template announces. */
  function ReminderTimeText(kind: EmailType): (r: string)
    ensures r == "24 horas" <==> kind == Reminder24h
    ensures kind != Reminder24h ==> r == "1 hora"
  {
    if kind == Reminder24h then "24 horas" else "1 hora"
  }

  /** The status an attempt records. */
  function StatusOf(d: Delivery): (s: EmailStatus)
    ensures s == Sent <==> d.Delivered?
    ensures s != Pending
  {
    if d.Delivered? then Sent else Failed
  }

  /** The error message an attempt records: the transport's, for a failed one. */
  function ErrorOf(d: Delivery): (e: Option<string>)
    ensures e.None? <==> d.Delivered?
    ensures d.Rejected? ==> e == Some(d.message)
  {
    if d.Delivered? then None else Some(d.message)
  }

  /** sent_at: the time of sending on 'sent' rows, NULL on the others. */
  function SentAt(status: EmailStatus, now: int): (r: Option<int>)
    ensures r.Some? <==> status == Sent
    ensures r.Some? ==> r.value == now
  {
    if status == Sent then Some(now) else None
  }

  /** The row updateEmailLog inserts under id `id` (no attempts counted, created now). */
  function LogRow(id: int, bookingId: int, kind: EmailType, status: EmailStatus,
                  errorMessage: Option<string>, now: int): EmailLog {
    EmailLog(id, bookingId, kind, status, 0, SentAt(status, now), errorMessage, now)
  }

  /** Every table and sequence but email_logs and its sequence is the same. */
  predicate SameTablesExceptLogs(d0: Db, d1: Db) {
    && d1.advisors == d0.advisors
    && d1.slots == d0.slots
    && d1.bookings == d0.bookings
    && d1.admins == d0.admins
    && d1.advisorSeq == d0.advisorSeq
    && d1.slotSeq == d0.slotSeq
    && d1.bookingSeq == d0.bookingSeq
    && d1.adminSeq == d0.adminSeq
  }

  /**
   * The effect of one updateEmailLog call taking `d0` to `d1`: one value drawn
   * from the email_logs sequence, and the row inserted when its booking exists
   * (otherwise the foreign-key error is swallowed and no row is added).
   */
  predicate Logged(d0: Db, d1: Db, bookingId: int, kind: EmailType, status: EmailStatus,
                   errorMessage: Option<string>, now: int) {
    && SameTablesExceptLogs(d0, d1)
    && d1.emailLogSeq == d0.emailLogSeq + 1
    && (FindBooking(d0.bookings, bookingId).Some? ==>
          d1.emailLogs == d0.emailLogs + [LogRow(d0.emailLogSeq + 1, bookingId, kind, status, errorMessage, now)])
    && (FindBooking(d0.bookings, bookingId).None? ==> d1.emailLogs == d0.emailLogs)
  }

  /** The INSERT updateEmailLog runs, as InsertEmailLog states it, is one logged attempt. */
  lemma InsertIsLogged(d0: Db, d1: Db, inserted: Result<int>, bookingId: int, kind: EmailType, status: EmailStatus,
                       errorMessage: Option<string>, now: int)
    requires inserted.Ok? <==> FindBooking(d0.bookings, bookingId).Some?
    requires SameTablesExceptLogs(d0, d1) && d1.emailLogSeq == d0.emailLogSeq + 1
    requires inserted.Ok? ==> d1.emailLogs == d0.emailLogs + [EmailLog(d0.emailLogSeq + 1, bookingId, kind, status, 0,
                                                                        SentAt(status, now), errorMessage, now)]
    requires inserted.Err? ==> d1.emailLogs == d0.emailLogs
    ensures Logged(d0, d1, bookingId, kind, status, errorMessage, now)
  {
  }

  /** The row a logged attempt for an existing booking adds. */
  lemma LoggedInserts(d0: Db, d1: Db, bookingId: int, kind: EmailType, status: EmailStatus,
                      errorMessage: Option<string>, now: int)
    requires Logged(d0, d1, bookingId, kind, status, errorMessage, now)
    requires FindBooking(d0.bookings, bookingId).Some?
    ensures d1.emailLogs == d0.emailLogs + [LogRow(d0.emailLogSeq + 1, bookingId, kind, status, errorMessage, now)]
  {
  }

  function JoinRow(b: Booking, s: TimeSlot, a: Advisor): MailBooking {
    MailBooking(b.id, b.clientName, b.clientEmail, a.name, s.startUtc, s.endUtc)
  }

  /** The resend query: the booking with id `id`, joined with its slot and its advisor. */
  function BookingForMail(d: Db, id: int): (r: Option<MailBooking>)
    ensures r.Some? ==> r.value.id == id && FindBooking(d.bookings, id).Some?
    ensures r.Some? ==> r.value.clientEmail == FindBooking(d.bookings, id).value.clientEmail
  {
    match FindBooking(d.bookings, id)
    case None => None
    case Some(b) =>
      match FindSlot(d.slots, b.slotId)
      case None => None
      case Some(s) =>
        match FindAdvisor(d.advisors, b.advisorId)
        case None => None
        case Some(a) => Some(JoinRow(b, s, a))
  }

  /** With the foreign keys in place the join loses no booking: it finds a row iff the booking exists. */
  lemma BookingForMailFound(d: Db, id: int)
    requires BookingsHaveSlots(d.bookings, d.slots, d.advisors)
    ensures BookingForMail(d, id).Some? <==> FindBooking(d.bookings, id).Some?
  {
    if FindBooking(d.bookings, id).Some? {
      var b := FindBooking(d.bookings, id).value;
      var i :| 0 <= i < |d.bookings| && d.bookings[i] == b;
    }
  }

  /** The service object; its state is the trace of messages handed to the transport. */
  class EmailService {
    /** Every message handed to the transport, oldest first. */
    var outbox: seq<Mail>

    constructor()
      ensures outbox == []
    {
      outbox := [];
    }

    /**
     * updateEmailLog: one INSERT, never an UPDATE; sent_at is set exactly for
     * 'sent'; an error of the insert is logged and swallowed.
     */
    method UpdateEmailLog(store: Store, bookingId: int, kind: EmailType, status: EmailStatus,
                          errorMessage: Option<string>, now: int)
      requires store.Valid()
      modifies store
      ensures store.Valid()
      ensures Logged(old(store.db), store.db, bookingId, kind, status, errorMessage, now)
    {
      ghost var d0 := store.db;
      var inserted := store.InsertEmailLog(bookingId, kind, status, errorMessage, SentAt(status, now), now);
      InsertIsLogged(d0, store.db, inserted, bookingId, kind, status, errorMessage, now);
    }

    /** Hands `mail` to the transport and records the attempt for `bookingId`. */
    method Deliver(store: Store, bookingId: int, mail: Mail, answer: Delivery, now: int)
      returns (r: Result<()>)
      requires store.Valid()
      modifies this, store
      ensures store.Valid()
      ensures outbox == old(outbox) + [mail]
      ensures r.Ok? <==> answer.Delivered?
      ensures r.Err? ==> r.error == answer.message
      ensures Logged(old(store.db), store.db, bookingId, mail.kind, StatusOf(answer),
                     ErrorOf(answer), now)
    {
      outbox := outbox + [mail];
      if answer.Rejected? {
        UpdateEmailLog(store, bookingId, mail.kind, Failed, Some(answer.message), now);
        return Err(answer.message);
      }
      UpdateEmailLog(store, bookingId, mail.kind, Sent, None, now);
      r := Ok(());
    }

    /** sendConfirmationEmail: success logs a 'sent' row, a transport error a 'failed' row and is rethrown. */
    method SendConfirmationEmail(store: Store, booking: MailBooking, answer: Delivery, now: int)
      returns (r: Result<()>)
      requires store.Valid()
      modifies this, store
      ensures store.Valid()
      ensures outbox == old(outbox) + [Mail(booking.clientEmail, ConfirmationSubject(booking.advisorName), Confirmation)]
      ensures r.Ok? <==> answer.Delivered?
      ensures r.Err? ==> r.error == answer.message
      ensures Logged(old(store.db), store.db, booking.id, Confirmation, StatusOf(answer),
                     ErrorOf(answer), now)
    {
      r := Deliver(store, booking.id, Mail(booking.clientEmail, ConfirmationSubject(booking.advisorName), Confirmation),
                   answer, now);
    }

    /** sendReminderEmail: as the confirmation, with the reminder's kind (24 hours unless given). */
    method SendReminderEmail(store: Store, booking: MailBooking, answer: Delivery, now: int,
                             kind: EmailType := Reminder24h)
      returns (r: Result<()>)
      requires store.Valid()
      modifies this, store
      ensures store.Valid()
      ensures outbox == old(outbox) + [Mail(booking.clientEmail, ReminderSubject(booking.advisorName), kind)]
      ensures r.Ok? <==> answer.Delivered?
      ensures r.Err? ==> r.error == answer.message
      ensures Logged(old(store.db), store.db, booking.id, kind, StatusOf(answer),
                     ErrorOf(answer), now)
    {
      r := Deliver(store, booking.id, Mail(booking.clientEmail, ReminderSubject(booking.advisorName), kind),
                   answer, now);
    }

    /** resendConfirmationEmail: an unknown booking is an error, with nothing sent and nothing logged. */
    method ResendConfirmationEmail(store: Store, bookingId: int, answer: Delivery, now: int)
      returns (r: Result<()>)
      requires store.Valid()
      modifies this, store
      ensures store.Valid()
      ensures BookingForMail(old(store.db), bookingId).None? ==>
                r == Err(MsgResendNotFound) && outbox == old(outbox) && store.db == old(store.db)
      ensures BookingForMail(old(store.db), bookingId).Some? ==>
                var b := BookingForMail(old(store.db), bookingId).value;
                && outbox == old(outbox) + [Mail(b.clientEmail, ConfirmationSubject(b.advisorName), Confirmation)]
                && (r.Ok? <==> answer.Delivered?)
                && (r.Err? ==> r.error == answer.message)
                && Logged(old(store.db), store.db, bookingId, Confirmation, StatusOf(answer),
                          ErrorOf(answer), now)
    {
      var row := BookingForMail(store.db, bookingId);
      if row.None? {
        return Err(MsgResendNotFound);
      }
      r := SendConfirmationEmail(store, row.value, answer, now);
    }
  }

  /** A delivered attempt for an existing booking leaves a 'sent' row of its kind. */
  lemma DeliveredIsLogged(d0: Db, d1: Db, bookingId: int, kind: EmailType, delivery: Delivery, now: int)
    requires Logged(d0, d1, bookingId, kind, StatusOf(delivery), ErrorOf(delivery), now)
    requires FindBooking(d0.bookings, bookingId).Some?
    ensures HasSentLog(d1.emailLogs, bookingId, kind) <==> HasSentLog(d0.emailLogs, bookingId, kind) || delivery.Delivered?
  {
    var row := LogRow(d0.emailLogSeq + 1, bookingId, kind, StatusOf(delivery), ErrorOf(delivery), now);
    HasSentLogAppend(d0.emailLogs, [row], bookingId, kind);
    if delivery.Delivered? {
      assert [row][0] == row;
    }
  }
}
