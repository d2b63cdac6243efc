/**
 * The reminder engine: each pass selects the confirmed bookings whose slot
 * starts inside the pass's window and that have no 'sent' reminder of its
 * kind yet, and tries to send each of them one reminder, counting successes
 * and failures. A delivered reminder leaves a 'sent' row, so running the pass
 * again at the same clock does not remind that booking twice.
 *
 * Times are seconds; `now` is the clock of the database (NOW()).
 */
module Reminders {
  import opened Common
  import opened Schema
  import opened Tables
  import opened BookingStore
  import opened Email
  import Seqs

  /** The two kinds of reminder; the confirmation is not one. */
  predicate IsReminder(kind: EmailType) {
    kind == Reminder24h || kind == Reminder1h
  }

  /** Lower bound of the window: NOW() + 23 hours, or NOW() + 55 minutes. */
  function WindowFrom(kind: EmailType): int {
    if kind == Reminder24h then 23 * 3600 else 55 * 60
  }

  /** Upper bound of the window: NOW() + 25 hours, or NOW() + 65 minutes. */
  function WindowTo(kind: EmailType): int {
    if kind == Reminder24h then 25 * 3600 else 65 * 60
  }

  /**
   * The WHERE clause of the selection: a confirmed booking that joins with its
   * slot and advisor, whose slot starts inside the closed window, and that has
   * no 'sent' row of this kind.
   */
  predicate IsDue(d: Db, b: Booking, kind: EmailType, now: int) {
    && b.status == Confirmed
    && FindSlot(d.slots, b.slotId).Some?
    && FindAdvisor(d.advisors, b.advisorId).Some?
    && now + WindowFrom(kind) <= FindSlot(d.slots, b.slotId).value.startUtc <= now + WindowTo(kind)
    && !HasSentLog(d.emailLogs, b.id, kind)
  }

  function DueCondition(d: Db, kind: EmailType, now: int): Booking -> bool {
    b => IsDue(d, b, kind, now)
  }

  /** The bookings a pass selects, in table order. */
  function DueBookings(d: Db, kind: EmailType, now: int): (r: seq<Booking>)
    ensures forall b :: b in r <==> b in d.bookings && IsDue(d, b, kind, now)
    ensures forall i :: 0 <= i < |r| ==> r[i] in d.bookings && IsDue(d, r[i], kind, now)
  {
    Seqs.Filter(d.bookings, DueCondition(d, kind, now))
  }

  /** The selected rows as the query returns them, joined with slot and advisor. */
  function DueRows(d: Db, kind: EmailType, now: int): (r: seq<MailBooking>)
    ensures |r| == |DueBookings(d, kind, now)|
    ensures forall i :: 0 <= i < |r| ==> r[i].id == DueBookings(d, kind, now)[i].id
    ensures forall i :: 0 <= i < |r| ==> FindBooking(d.bookings, r[i].id).Some?
  {
    var bs := DueBookings(d, kind, now);
    var rows := seq(|bs|, i requires 0 <= i < |bs| => RowOf(d, bs[i]));
    assert forall i :: 0 <= i < |rows| ==> FindBooking(d.bookings, rows[i].id).Some? by {
      forall i | 0 <= i < |rows|
        ensures FindBooking(d.bookings, rows[i].id).Some?
      {
        assert bs[i] in d.bookings;
      }
    }
    rows
  }

  /** The joined row of a booking whose slot and advisor exist. */
  function RowOf(d: Db, b: Booking): (r: MailBooking)
    requires FindSlot(d.slots, b.slotId).Some? && FindAdvisor(d.advisors, b.advisorId).Some?
    ensures r.id == b.id
  {
    JoinRow(b, FindSlot(d.slots, b.slotId).value, FindAdvisor(d.advisors, b.advisorId).value)
  }

  /** The ids of the bookings table. */
  function BookingIds(bookings: seq<Booking>): set<int> {
    set b | b in bookings :: b.id
  }

  lemma BookingIdsFound(bookings: seq<Booking>, id: int)
    ensures id in BookingIds(bookings) <==> FindBooking(bookings, id).Some?
  {
    if id in BookingIds(bookings) {
      var b :| b in bookings && b.id == id;
      var i :| 0 <= i < |bookings| && bookings[i] == b;
    }
  }

  /** The number of the attempts 0 .. n - 1 that the transport delivers. */
  function DeliveredCount(outcome: nat -> Delivery, n: nat): (c: nat)
    ensures c <= n
  {
    if n == 0 then 0
    else DeliveredCount(outcome, n - 1) + (if outcome(n - 1).Delivered? then 1 else 0)
  }

  /** The messages a pass hands to the transport: one per selected row, in order. */
  function ReminderMails(rows: seq<MailBooking>, kind: EmailType): (r: seq<Mail>)
    ensures |r| == |rows|
  {
    if rows == [] then []
    else
      var last := rows[|rows| - 1];
      ReminderMails(rows[..|rows| - 1], kind) + [Mail(last.clientEmail, ReminderSubject(last.advisorName), kind)]
  }

  /** The i-th message of a pass goes to the i-th selected client, about that client's advisor. */
  lemma {:induction false} ReminderMailsAt(rows: seq<MailBooking>, kind: EmailType, i: int)
    requires 0 <= i < |rows|
    ensures ReminderMails(rows, kind)[i] == Mail(rows[i].clientEmail, ReminderSubject(rows[i].advisorName), kind)
    decreases |rows|
  {
    if i < |rows| - 1 {
      ReminderMailsAt(rows[..|rows| - 1], kind, i);
    }
  }

  /**
   * The rows a pass appends to email_logs: for the i-th selected booking,
   * the i-th id after `firstId - 1`, and 'sent' or 'failed' as the
   * transport's answer to attempt `i`.
   */
  function BatchLogs(rows: seq<MailBooking>, kind: EmailType, outcome: nat -> Delivery,
                     firstId: int, now: int): (r: seq<EmailLog>)
    ensures |r| == |rows|
  {
    if rows == [] then []
    else
      var n := |rows| - 1;
      BatchLogs(rows[..n], kind, outcome, firstId, now)
        + [LogRow(firstId + n, rows[n].id, kind, StatusOf(outcome(n)), ErrorOf(outcome(n)), now)]
  }

  /** The i-th row a pass logs is for the i-th selected booking, with the i-th id and the i-th answer. */
  lemma {:induction false} BatchLogsAt(rows: seq<MailBooking>, kind: EmailType, outcome: nat -> Delivery,
                                       firstId: int, now: int, i: int)
    requires 0 <= i < |rows|
    ensures BatchLogs(rows, kind, outcome, firstId, now)[i]
              == LogRow(firstId + i, rows[i].id, kind, StatusOf(outcome(i)), ErrorOf(outcome(i)), now)
    decreases |rows|
  {
    if i < |rows| - 1 {
      BatchLogsAt(rows[..|rows| - 1], kind, outcome, firstId, now, i);
    }
  }

  /** The database after the first `i` attempts of a pass that started from `d0`. */
  predicate BatchDone(d0: Db, d: Db, rows: seq<MailBooking>, i: int, kind: EmailType, outcome: nat -> Delivery,
                      now: int)
    requires 0 <= i <= |rows|
  {
    && SameTablesExceptLogs(d0, d)
    && d.emailLogs == d0.emailLogs + BatchLogs(rows[..i], kind, outcome, d0.emailLogSeq + 1, now)
    && d.emailLogSeq == d0.emailLogSeq + i
  }

  lemma BatchDoneStep(d0: Db, before: Db, after: Db, rows: seq<MailBooking>, i: int, kind: EmailType,
                      outcome: nat -> Delivery, now: int)
    requires 0 <= i < |rows|
    requires BatchDone(d0, before, rows, i, kind, outcome, now)
    requires FindBooking(d0.bookings, rows[i].id).Some?
    requires Logged(before, after, rows[i].id, kind, StatusOf(outcome(i)), ErrorOf(outcome(i)), now)
    ensures BatchDone(d0, after, rows, i + 1, kind, outcome, now)
  {
    LoggedInserts(before, after, rows[i].id, kind, StatusOf(outcome(i)), ErrorOf(outcome(i)), now);
    var row := LogRow(before.emailLogSeq + 1, rows[i].id, kind, StatusOf(outcome(i)), ErrorOf(outcome(i)), now);
    assert row == LogRow(d0.emailLogSeq + 1 + i, rows[i].id, kind, StatusOf(outcome(i)), ErrorOf(outcome(i)), now);
    BatchLogsStep(rows, i, kind, outcome, d0.emailLogSeq + 1, now);
    AppendAssoc(d0.emailLogs, BatchLogs(rows[..i], kind, outcome, d0.emailLogSeq + 1, now), [row]);
  }

  /**
   * The effect of a pass over `rows` taking `d0` to `d1`: one log row per row, in
   * order, with consecutive ids, and every other table unchanged.
   */
  predicate PassLogged(d0: Db, d1: Db, rows: seq<MailBooking>, kind: EmailType, outcome: nat -> Delivery,
                       now: int) {
    && SameTablesExceptLogs(d0, d1)
    && d1.emailLogs == d0.emailLogs + BatchLogs(rows, kind, outcome, d0.emailLogSeq + 1, now)
    && d1.emailLogSeq == d0.emailLogSeq + |rows|
  }

  lemma BatchDoneAll(d0: Db, d: Db, rows: seq<MailBooking>, kind: EmailType, outcome: nat -> Delivery,
                     now: int)
    requires BatchDone(d0, d, rows, |rows|, kind, outcome, now)
    ensures PassLogged(d0, d, rows, kind, outcome, now)
  {
    assert rows[..|rows|] == rows;
  }

  lemma MailsStep(out0: seq<Mail>, before: seq<Mail>, after: seq<Mail>, rows: seq<MailBooking>, i: int, kind: EmailType)
    requires 0 <= i < |rows|
    requires before == out0 + ReminderMails(rows[..i], kind)
    requires after == before + [Mail(rows[i].clientEmail, ReminderSubject(rows[i].advisorName), kind)]
    ensures after == out0 + ReminderMails(rows[..i + 1], kind)
  {
    ReminderMailsStep(rows, i, kind);
    AppendAssoc(out0, ReminderMails(rows[..i], kind), [Mail(rows[i].clientEmail, ReminderSubject(rows[i].advisorName), kind)]);
  }

  lemma DeliveredCountStep(outcome: nat -> Delivery, n: nat)
    ensures DeliveredCount(outcome, n + 1)
              == DeliveredCount(outcome, n) + (if outcome(n).Delivered? then 1 else 0)
  {
  }

  lemma AppendAssoc<T>(a: seq<T>, b: seq<T>, c: seq<T>)
    ensures (a + b) + c == a + (b + c)
  {
  }

  lemma BatchLogsStep(rows: seq<MailBooking>, i: int, kind: EmailType, outcome: nat -> Delivery,
                      firstId: int, now: int)
    requires 0 <= i < |rows|
    ensures BatchLogs(rows[..i + 1], kind, outcome, firstId, now)
              == BatchLogs(rows[..i], kind, outcome, firstId, now)
                 + [LogRow(firstId + i, rows[i].id, kind, StatusOf(outcome(i)), ErrorOf(outcome(i)), now)]
  {
    assert rows[..i + 1][..i] == rows[..i];
  }

  lemma ReminderMailsStep(rows: seq<MailBooking>, i: int, kind: EmailType)
    requires 0 <= i < |rows|
    ensures ReminderMails(rows[..i + 1], kind)
              == ReminderMails(rows[..i], kind) + [Mail(rows[i].clientEmail, ReminderSubject(rows[i].advisorName), kind)]
  {
    assert rows[..i + 1][..i] == rows[..i];
  }

  /** The booking `id` is one of the rows whose attempt was delivered. */
  predicate Reminded(rows: seq<MailBooking>, outcome: nat -> Delivery, id: int) {
    exists j :: 0 <= j < |rows| && rows[j].id == id && outcome(j).Delivered?
  }

  /** Every row of a pass is for a booking of the table. */
  predicate RowsBooked(rows: seq<MailBooking>, bookings: seq<Booking>) {
    forall k :: 0 <= k < |rows| ==> rows[k].id in BookingIds(bookings)
  }

  /** `{sent, errors}` of one pass. */
  datatype Counts = Counts(sent: nat, errors: nat)

  /**
   * The state of a pass after its first `i` rows: the store still valid, one
   * log row per attempt so far, and one message per attempt in the outbox.
   */
  predicate PassProgress(mailer: EmailService, store: Store, d0: Db, out0: seq<Mail>, rows: seq<MailBooking>,
                         i: int, kind: EmailType, outcome: nat -> Delivery, now: int)
    requires 0 <= i <= |rows|
    reads mailer, store
  {
    && store.Valid()
    && RowsBooked(rows, d0.bookings)
    && BatchDone(d0, store.db, rows, i, kind, outcome, now)
    && mailer.outbox == out0 + ReminderMails(rows[..i], kind)
  }

  /** After the last row, the pass has logged every row and sent every message. */
  lemma PassProgressDone(mailer: EmailService, store: Store, d0: Db, out0: seq<Mail>, rows: seq<MailBooking>,
                         kind: EmailType, outcome: nat -> Delivery, now: int)
    requires PassProgress(mailer, store, d0, out0, rows, |rows|, kind, outcome, now)
    ensures store.Valid()
    ensures PassLogged(d0, store.db, rows, kind, outcome, now)
    ensures mailer.outbox == out0 + ReminderMails(rows, kind)
  {
    BatchDoneAll(d0, store.db, rows, kind, outcome, now);
    assert rows[..|rows|] == rows;
  }

  /** One turn of the loop of a pass: the reminder for `rows[i]`, sent and logged. */
  method SendOne(mailer: EmailService, store: Store, rows: seq<MailBooking>, i: int, kind: EmailType, now: int,
                 outcome: nat -> Delivery, ghost d0: Db, ghost out0: seq<Mail>, sent: nat, errors: nat)
    returns (sent': nat, errors': nat)
    requires 0 <= i < |rows|
    requires sent + errors == i && sent == DeliveredCount(outcome, i)
    requires PassProgress(mailer, store, d0, out0, rows, i, kind, outcome, now)
    modifies mailer, store
    ensures sent' + errors' == i + 1 && sent' == DeliveredCount(outcome, i + 1)
    ensures sent' == sent + (if outcome(i).Delivered? then 1 else 0)
    ensures PassProgress(mailer, store, d0, out0, rows, i + 1, kind, outcome, now)
  {
    ghost var before := store.db;
    ghost var outBefore := mailer.outbox;
    DeliveredCountStep(outcome, i);
    var sendResult := mailer.SendReminderEmail(store, rows[i], outcome(i), now, kind);
    if sendResult.Ok? {
      sent', errors' := sent + 1, errors;
    } else {
      sent', errors' := sent, errors + 1;
    }
    BookingIdsFound(d0.bookings, rows[i].id);
    BatchDoneStep(d0, before, store.db, rows, i, kind, outcome, now);
    MailsStep(out0, outBefore, mailer.outbox, rows, i, kind);
  }

  /**
   * The `for` loop of a pass: one attempt per row, in order; a failed attempt
   * is counted and the loop goes on.
   */
  method SendAll(mailer: EmailService, store: Store, rows: seq<MailBooking>, kind: EmailType, now: int,
                 outcome: nat -> Delivery)
    returns (counts: Counts)
    requires store.Valid()
    requires RowsBooked(rows, store.db.bookings)
    modifies mailer, store
    ensures store.Valid()
    ensures counts.sent + counts.errors == |rows|
    ensures counts.sent == DeliveredCount(outcome, |rows|)
    ensures mailer.outbox == old(mailer.outbox) + ReminderMails(rows, kind)
    ensures PassLogged(old(store.db), store.db, rows, kind, outcome, now)
  {
    ghost var d0 := store.db;
    ghost var out0 := mailer.outbox;
    assert BatchDone(d0, store.db, rows, 0, kind, outcome, now) by {
      assert rows[..0] == [];
    }
    var sent, errors := 0, 0;
    var i := 0;
    while i < |rows|
      invariant 0 <= i <= |rows|
      invariant sent + errors == i && sent == DeliveredCount(outcome, i)
      invariant PassProgress(mailer, store, d0, out0, rows, i, kind, outcome, now)
    {
      sent, errors := SendOne(mailer, store, rows, i, kind, now, outcome, d0, out0, sent, errors);
      i := i + 1;
    }
    PassProgressDone(mailer, store, d0, out0, rows, kind, outcome, now);
    counts := Counts(sent, errors);
  }

  /**
   * send24HourReminders / send1HourReminders: a failing selection query is
   * rethrown with nothing sent; otherwise the selected rows go through SendAll.
   */
  method SendReminders(mailer: EmailService, store: Store, kind: EmailType, now: int,
                       selectionError: Option<string>, outcome: nat -> Delivery)
    returns (r: Result<Counts>)
    requires IsReminder(kind) && store.Valid()
    modifies mailer, store
    ensures store.Valid()
    ensures r.Err? <==> selectionError.Some?
    ensures r.Err? ==> r.error == selectionError.value && store.db == old(store.db) && mailer.outbox == old(mailer.outbox)
    ensures r.Ok? ==>
              var rows := DueRows(old(store.db), kind, now);
              && r.value.sent + r.value.errors == |rows|
              && r.value.sent == DeliveredCount(outcome, |rows|)
              && mailer.outbox == old(mailer.outbox) + ReminderMails(rows, kind)
              && PassLogged(old(store.db), store.db, rows, kind, outcome, now)
  {
    if selectionError.Some? {
      return Err(selectionError.value);
    }
    var rows := DueRows(store.db, kind, now);
    forall i | 0 <= i < |rows|
      ensures rows[i].id in BookingIds(store.db.bookings)
    {
      BookingIdsFound(store.db.bookings, rows[i].id);
    }
    var counts := SendAll(mailer, store, rows, kind, now, outcome);
    r := Ok(counts);
  }

  // ------------------------------------------------------------ reruns

  /** The rows a pass logs hold a 'sent' row of its kind for a booking iff one of its attempts for it was delivered. */
  lemma BatchLogsSent(rows: seq<MailBooking>, kind: EmailType, outcome: nat -> Delivery, firstId: int, now: int,
                      id: int)
    ensures HasSentLog(BatchLogs(rows, kind, outcome, firstId, now), id, kind) <==> Reminded(rows, outcome, id)
  {
    var added := BatchLogs(rows, kind, outcome, firstId, now);
    if HasSentLog(added, id, kind) {
      var i :| 0 <= i < |added| && added[i].bookingId == id && added[i].kind == kind && added[i].status == Sent;
      BatchLogsAt(rows, kind, outcome, firstId, now, i);
    }
    if Reminded(rows, outcome, id) {
      var j :| 0 <= j < |rows| && rows[j].id == id && outcome(j).Delivered?;
      BatchLogsAt(rows, kind, outcome, firstId, now, j);
    }
  }

  /** The rows a pass logs are all of its own kind. */
  lemma BatchLogsOtherKind(rows: seq<MailBooking>, kind: EmailType, other: EmailType, outcome: nat -> Delivery,
                           firstId: int, now: int, id: int)
    requires kind != other
    ensures !HasSentLog(BatchLogs(rows, kind, outcome, firstId, now), id, other)
  {
    var added := BatchLogs(rows, kind, outcome, firstId, now);
    if HasSentLog(added, id, other) {
      var i :| 0 <= i < |added| && added[i].bookingId == id && added[i].kind == other && added[i].status == Sent;
      BatchLogsAt(rows, kind, outcome, firstId, now, i);
    }
  }

  /**
   * After a pass, a booking is selected by the same pass exactly when it was
   * selected before and none of its attempts was delivered.
   */
  lemma RerunSkipsReminded(d0: Db, d1: Db, kind: EmailType, now: int, outcome: nat -> Delivery, b: Booking)
    requires PassLogged(d0, d1, DueRows(d0, kind, now), kind, outcome, now)
    ensures IsDue(d1, b, kind, now) <==> IsDue(d0, b, kind, now) && !Reminded(DueRows(d0, kind, now), outcome, b.id)
  {
    var rows := DueRows(d0, kind, now);
    var added := BatchLogs(rows, kind, outcome, d0.emailLogSeq + 1, now);
    HasSentLogAppend(d0.emailLogs, added, b.id, kind);
    BatchLogsSent(rows, kind, outcome, d0.emailLogSeq + 1, now, b.id);
  }

  /** A second pass at the same clock selects what the first selected, less the bookings it reminded. */
  lemma RerunSelection(d0: Db, d1: Db, kind: EmailType, now: int, outcome: nat -> Delivery)
    requires PassLogged(d0, d1, DueRows(d0, kind, now), kind, outcome, now)
    ensures forall b :: b in DueBookings(d1, kind, now) <==>
              b in DueBookings(d0, kind, now) && !Reminded(DueRows(d0, kind, now), outcome, b.id)
  {
    forall b
      ensures b in DueBookings(d1, kind, now) <==>
                b in DueBookings(d0, kind, now) && !Reminded(DueRows(d0, kind, now), outcome, b.id)
    {
      RerunSkipsReminded(d0, d1, kind, now, outcome, b);
    }
  }

  /** A pass of one kind does not change whether a booking is due for the other kind. */
  lemma OtherKindIsDue(d0: Db, d1: Db, kind: EmailType, other: EmailType, now: int, outcome: nat -> Delivery,
                       b: Booking)
    requires kind != other
    requires PassLogged(d0, d1, DueRows(d0, kind, now), kind, outcome, now)
    ensures IsDue(d1, b, other, now) == IsDue(d0, b, other, now)
  {
    var added := BatchLogs(DueRows(d0, kind, now), kind, outcome, d0.emailLogSeq + 1, now);
    HasSentLogAppend(d0.emailLogs, added, b.id, other);
    BatchLogsOtherKind(DueRows(d0, kind, now), kind, other, outcome, d0.emailLogSeq + 1, now, b.id);
  }

  /** The joined rows depend only on the selected bookings and the slots and advisors they join with. */
  lemma DueRowsSameSelection(d0: Db, d1: Db, kind: EmailType, now: int)
    requires SameTablesExceptLogs(d0, d1)
    requires DueBookings(d1, kind, now) == DueBookings(d0, kind, now)
    ensures DueRows(d1, kind, now) == DueRows(d0, kind, now)
  {
    var r0 := DueRows(d0, kind, now);
    var r1 := DueRows(d1, kind, now);
    assert forall i :: 0 <= i < |r0| ==> r1[i] == r0[i];
  }

  /** Rows of one kind of reminder do not change which bookings a pass of the other kind selects. */
  lemma OtherKindUnaffected(d0: Db, d1: Db, kind: EmailType, other: EmailType, now: int,
                            outcome: nat -> Delivery)
    requires kind != other
    requires PassLogged(d0, d1, DueRows(d0, kind, now), kind, outcome, now)
    ensures DueBookings(d1, other, now) == DueBookings(d0, other, now)
    ensures DueRows(d1, other, now) == DueRows(d0, other, now)
  {
    forall b | b in d0.bookings
      ensures DueCondition(d0, other, now)(b) == DueCondition(d1, other, now)(b)
    {
      OtherKindIsDue(d0, d1, kind, other, now, outcome, b);
    }
    Seqs.FilterCongruent(d0.bookings, DueCondition(d0, other, now), DueCondition(d1, other, now));
    DueRowsSameSelection(d0, d1, other, now);
  }

  // ----------------------------------------------------------- both passes

  /** The result of processAllReminders. */
  datatype Totals = Totals(reminder24h: Counts, reminder1h: Counts, total: Counts)

  /**
   * What processAllReminders leaves in the database and the outbox, from `d0`
   * and `out0`: nothing when the 24-hour selection fails; the 24-hour pass
   * alone when the 1-hour selection fails; otherwise both passes, the 1-hour
   * rows logged after the 24-hour ones with the ids that follow theirs.
   */
  predicate RemindersDone(d0: Db, out0: seq<Mail>, d1: Db, out1: seq<Mail>, now: int,
                          selection24h: Option<string>, outcome24h: nat -> Delivery,
                          selection1h: Option<string>, outcome1h: nat -> Delivery)
  {
    var rows24 := DueRows(d0, Reminder24h, now);
    var rows1 := DueRows(d0, Reminder1h, now);
    if selection24h.Some? then
      d1 == d0 && out1 == out0
    else if selection1h.Some? then
      && PassLogged(d0, d1, rows24, Reminder24h, outcome24h, now)
      && out1 == out0 + ReminderMails(rows24, Reminder24h)
    else
      && SameTablesExceptLogs(d0, d1)
      && d1.emailLogs == d0.emailLogs
                         + BatchLogs(rows24, Reminder24h, outcome24h, d0.emailLogSeq + 1, now)
                         + BatchLogs(rows1, Reminder1h, outcome1h, d0.emailLogSeq + |rows24| + 1, now)
      && d1.emailLogSeq == d0.emailLogSeq + |rows24| + |rows1|
      && out1 == out0 + ReminderMails(rows24, Reminder24h) + ReminderMails(rows1, Reminder1h)
  }

  /** A 24-hour pass from `d0` followed by a 1-hour pass of the rows `d0` already selected is the full effect. */
  lemma BothPassesDone(d0: Db, mid: Db, d1: Db, out0: seq<Mail>, outMid: seq<Mail>, out1: seq<Mail>, now: int,
                       outcome24h: nat -> Delivery, outcome1h: nat -> Delivery)
    requires PassLogged(d0, mid, DueRows(d0, Reminder24h, now), Reminder24h, outcome24h, now)
    requires PassLogged(mid, d1, DueRows(d0, Reminder1h, now), Reminder1h, outcome1h, now)
    requires outMid == out0 + ReminderMails(DueRows(d0, Reminder24h, now), Reminder24h)
    requires out1 == outMid + ReminderMails(DueRows(d0, Reminder1h, now), Reminder1h)
    ensures RemindersDone(d0, out0, d1, out1, now, None, outcome24h, None, outcome1h)
  {
    var rows24, rows1 := DueRows(d0, Reminder24h, now), DueRows(d0, Reminder1h, now);
    AppendAssoc(d0.emailLogs, BatchLogs(rows24, Reminder24h, outcome24h, d0.emailLogSeq + 1, now),
                BatchLogs(rows1, Reminder1h, outcome1h, mid.emailLogSeq + 1, now));
  }

  /** When the 1-hour selection fails, the 24-hour pass is the whole effect. */
  lemma FirstPassDone(d0: Db, d1: Db, out0: seq<Mail>, out1: seq<Mail>, now: int,
                      outcome24h: nat -> Delivery, error1h: string, outcome1h: nat -> Delivery)
    requires PassLogged(d0, d1, DueRows(d0, Reminder24h, now), Reminder24h, outcome24h, now)
    requires out1 == out0 + ReminderMails(DueRows(d0, Reminder24h, now), Reminder24h)
    ensures RemindersDone(d0, out0, d1, out1, now, None, outcome24h, Some(error1h), outcome1h)
  {
  }

  /**
   * processAllReminders: the 24-hour pass, then the 1-hour pass, and their sums.
   * A failing selection is rethrown; what an earlier pass did stays done.
   */
  method ProcessAllReminders(mailer: EmailService, store: Store, now: int,
                             selection24h: Option<string>, outcome24h: nat -> Delivery,
                             selection1h: Option<string>, outcome1h: nat -> Delivery)
    returns (r: Result<Totals>)
    requires store.Valid()
    modifies mailer, store
    ensures store.Valid()
    ensures r.Ok? <==> selection24h.None? && selection1h.None?
    ensures selection24h.Some? ==>
              r == Err(selection24h.value) && store.db == old(store.db) && mailer.outbox == old(mailer.outbox)
    ensures selection24h.None? && selection1h.Some? ==>
              && r == Err(selection1h.value)
              && mailer.outbox == old(mailer.outbox) + ReminderMails(DueRows(old(store.db), Reminder24h, now), Reminder24h)
    ensures r.Ok? ==>
              var rows24 := DueRows(old(store.db), Reminder24h, now);
              var rows1 := DueRows(old(store.db), Reminder1h, now);
              && r.value.reminder24h.sent + r.value.reminder24h.errors == |rows24|
              && r.value.reminder24h.sent == DeliveredCount(outcome24h, |rows24|)
              && r.value.reminder1h.sent + r.value.reminder1h.errors == |rows1|
              && r.value.reminder1h.sent == DeliveredCount(outcome1h, |rows1|)
              && r.value.total == Counts(r.value.reminder24h.sent + r.value.reminder1h.sent,
                                         r.value.reminder24h.errors + r.value.reminder1h.errors)
              && mailer.outbox == old(mailer.outbox) + ReminderMails(rows24, Reminder24h) + ReminderMails(rows1, Reminder1h)
    ensures RemindersDone(old(store.db), old(mailer.outbox), store.db, mailer.outbox, now,
                          selection24h, outcome24h, selection1h, outcome1h)
  {
    ghost var d0, out0 := store.db, mailer.outbox;
    var results24h := SendReminders(mailer, store, Reminder24h, now, selection24h, outcome24h);
    if results24h.Err? {
      return Err(results24h.error);
    }
    OtherKindUnaffected(d0, store.db, Reminder24h, Reminder1h, now, outcome24h);
    ghost var mid, outMid := store.db, mailer.outbox;
    var results1h := SendReminders(mailer, store, Reminder1h, now, selection1h, outcome1h);
    if results1h.Err? {
      FirstPassDone(d0, store.db, out0, mailer.outbox, now, outcome24h, selection1h.value, outcome1h);
      return Err(results1h.error);
    }
    BothPassesDone(d0, mid, store.db, out0, outMid, mailer.outbox, now, outcome24h, outcome1h);
    var a, b := results24h.value, results1h.value;
    r := Ok(Totals(a, b, Counts(a.sent + b.sent, a.errors + b.errors)));
  }
}
