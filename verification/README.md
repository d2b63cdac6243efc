# Booking backend: a Dafny model

A model of the core of a booking backend written in Node.js over PostgreSQL.
Clients book free time slots of advisors. Administrators change the status of
bookings and read listings and statistics. A scheduled job e-mails reminders 24
hours and 1 hour before each appointment. Every e-mail attempt is written to an
`email_logs` table. The modelled parts are:

- **Tables and stored procedures** (`schema.dfy`, `tables.dfy`, `store.dfy`,
  `invariants.dfy`, `queries.dfy`, `email_pattern.dfy`, `text.dfy`, `seqs.dfy`).
  - The five tables are sequences of rows in the class `BookingStore.Store`,
    with one counter per SERIAL column.
  - The CHECK, UNIQUE and foreign-key constraints are the invariant `Valid()`.
  - The mutating procedures are atomic methods. `sp_create_booking`,
    `sp_update_booking_status`, `sp_resend_email` and `sp_create_admin` change
    nothing on any error, as their `EXCEPTION WHEN OTHERS` blocks roll the
    work back.
  - The read-only procedures are functions.
  - The invariant "at most one confirmed or completed booking per slot, and its
    slot is 'booked'" is proved to hold after every step.
- **E-mail log rules** (`email.dfy`): what `updateEmailLog` and the three send
  operations append to `email_logs`. Transport success or failure is an input.
- **Reminder engine** (`reminders.dfy`): the due-booking selection, the two
  counting loops, and the idempotence of a rerun at the same clock.
- **Reminder scheduler** (`cron.dfy`): the `ReminderCron` class with `start`,
  `stop`, `getStatus`, `runManually` and the scheduled callback.
- **Error and response mapping, rate limiter** (`error_handler.dfy`):
  `handleSPError`, the `res.send` rewrite of `handleSPResponse`, and the
  sliding-window table of `customRateLimit`.
- **Database access** (`connection.js`, modelled in `connection.dfy`): the
  text `callProcedure` sends and logs, and the `getPool` guard.
- **Swagger helpers** (`swagger_generator.dfy`, `swagger_injector.dfy`):
  - the JSDoc comment built by `generateJSDoc`, as an accumulating string;
  - the key-to-comment map of `generateForFile`;
  - `getJSDocForRoute`;
  - the path map of `injectSwaggerDocs` and its merge into the served
    specification.

Times are integer seconds and the clock is a parameter named `now`, so 23 hours
is 82800 and 55 minutes is 3300. The rate limiter keeps the source's
milliseconds. SQL NULL is `None`. A `RAISE EXCEPTION` becomes SQLSTATE
`P0001` with its text as the message. A thrown JavaScript error is `Err(message)`.

## Model

| member | source | states |
|---|---|---|
| Schema.ParseBookingStatus | src/database/create-stored-procedures.js:544-546 | a status string is accepted exactly when it is one of 'confirmed', 'cancelled', 'completed' (case-sensitive), and names the status it parses to |
| Schema.BookingStatusRoundTrip | src/database/connection.js:113 | every booking status the CHECK constraint admits parses back from its own name |
| Schema.Raise | src/database/create-stored-procedures.js:203-208 | a RAISE EXCEPTION caught by the handler replies with SQLSTATE P0001 and the raised text |
| Tables.FindAdvisor | src/database/create-stored-procedures.js:77 | the lookup by id finds a row with that id, and finds none exactly when no row has it |
| Tables.FindSlot | src/database/create-stored-procedures.js:163-170 | the slot lookup finds a row with the id, and none exactly when no row has that id |
| Tables.FindBooking | src/database/create-stored-procedures.js:549-556 | the booking lookup finds a row with the id, and none exactly when no row has that id |
| Tables.FindAdminByEmail | src/database/create-stored-procedures.js:392 | the admin lookup finds a row with the e-mail, and none exactly when no row has it |
| Tables.SetSlotStatus | src/database/create-stored-procedures.js:181-183 | `UPDATE time_slots SET status`: the rows with the id get the status, every other row is unchanged, the length is kept |
| Tables.SetBookingStatus | src/database/create-stored-procedures.js:564-566 | `UPDATE bookings SET status, updated_at`: only the row with the id changes |
| Tables.FindSlotAfterSet | src/database/create-stored-procedures.js:571-573 | after a slot update, a lookup of that slot sees the new status and every other lookup is unchanged |
| Tables.FindBookingAfterSet | src/database/create-stored-procedures.js:564-566 | after a booking update, a lookup of that booking sees the new status and others are unchanged |
| Tables.HasSentLogAppend | src/services/reminderService.js:28-33 | the NOT EXISTS test for a 'sent' row over appended rows holds exactly when it holds over either part |
| Tables.OtherActiveOnSlot | src/database/create-stored-procedures.js:576-580 | the EXISTS subquery holds exactly when another booking on the slot is confirmed or completed |
| Tables.SerialAppend | src/database/connection.js:108 | appending a row with the next SERIAL value keeps the ids unique and within the counter |
| Tables.SetSlotStatusKeepsKeys | src/database/connection.js:94 | a status update keeps the slot ids unique and within the counter |
| Tables.FindSlotOfRow | src/database/connection.js:94 | with unique ids, looking up a slot's own id finds that row |
| Tables.FindBookingOfRow | src/database/connection.js:108 | with unique ids, looking up a booking's own id finds that row |
| Tables.FindAdminOfRow | src/database/connection.js:137 | under UNIQUE(email), looking up an admin's own e-mail finds that row |
| Tables.FindAdvisorAfterAppend | src/database/connection.js:82-88 | after an INSERT the new advisor is found by its id, and every other lookup is unchanged |
| Tables.FindSlotAfterAppend | src/database/connection.js:93-102 | after an INSERT the new slot is found by its id, and every other lookup is unchanged |
| Tables.FindBookingAfterAppend | src/database/create-stored-procedures.js:176-178 | after the INSERT the new booking is found by its id, and every other lookup is unchanged |
| Tables.SerialSkip | src/database/connection.js:122 | a value drawn from a sequence by a failed INSERT keeps the ids unique and within the counter |
| Text.Trim | src/database/create-stored-procedures.js:147 | PostgreSQL TRIM: a contiguous part of the input with no leading or trailing space |
| Text.BlankIffAllSpaces | src/database/create-stored-procedures.js:147-153 | `TRIM(COALESCE(s, '')) = ''` holds exactly when the string is all spaces |
| Text.TrimOfTrimmed | src/database/create-stored-procedures.js:177 | trimming is idempotent on a trimmed string |
| Text.TrimNoSpace | src/database/create-stored-procedures.js:177 | a string without spaces is its own trim |
| Text.Join | src/database/connection.js:224 | `join` of no strings is empty and of one string is that string |
| Text.JoinSnoc | src/database/connection.js:222-224 | joining one more element appends the separator and that element, so the list is written in order with ", " between neighbours |
| Text.Lower | src/database/create-stored-procedures.js:177 | LOWER maps each character, keeping the length |
| Text.LowerIsLower | src/database/create-stored-procedures.js:177 | a lowered string has no capitals, and lowering it again changes nothing |
| Text.Upper | src/utils/swagger-generator.js:103 | toUpperCase maps each character, keeping the length |
| Text.NatToString | src/database/connection.js:223 | the decimal text of a number is non-empty and all digits |
| Text.NatToStringRoundTrip | src/database/connection.js:223 | reading the decimal text back gives the number |
| Text.NatToStringInjective | src/database/connection.js:222-224 | distinct numbers give distinct placeholder texts |
| Text.IntToString | src/database/connection.js:233-235 | a number parameter is rendered with a leading '-' exactly when it is negative |
| EmailPattern.FirstIndexOf | src/database/create-stored-procedures.js:156 | the first '@' of the address, or its length when there is none |
| EmailPattern.LastIndexOf | src/database/create-stored-procedures.js:156 | the last '.' of the address, or -1 when there is none |
| EmailPattern.EmailFormatOkIffPattern | src/database/create-stored-procedures.js:156 | the left-to-right scan accepts exactly the strings `^[A-Za-z0-9._%+-]+@[A-Za-z0-9.-]+\.[A-Za-z]{2,}$` matches |
| EmailPattern.MatchHasNoSpace | src/database/create-stored-procedures.js:151-157 | an address the pattern accepts has no space, so TRIM leaves it alone and it is not blank |
| EmailPattern.LeadingSpaceRejected | src/database/create-stored-procedures.js:156 | the pattern is tested on the untrimmed input, so a leading space is refused |
| BookingStore.CreateBookingInputError | src/database/create-stored-procedures.js:143-158 | the first failing input check in source order: slot id NULL or 0, name blank, e-mail blank, e-mail pattern; none fails exactly when all pass |
| BookingStore.EmailCheckFacts | src/database/create-stored-procedures.js:151-157 | the pattern check and its scanner agree, and an accepted address is never blank |
| BookingStore.StoredEmailIsLowered | src/database/create-stored-procedures.js:177 | the stored e-mail of an accepted address is its lower-case form, with no capitals |
| BookingStore.CreateAdminInputError | src/database/create-stored-procedures.js:383-389 | sp_create_admin refuses a blank e-mail, then a blank hash, and passes exactly when neither is blank |
| BookingStore.StatusUpdateRejections | src/database/create-stored-procedures.js:540-561 | the rejections of sp_update_booking_status in check order: id NULL or 0, a status outside the three names, an unknown booking, a NULL status (NOT NULL violation 23502), the current status again; every error leaves the tables unchanged |
| BookingStore.StatusUpdateSuccess | src/database/create-stored-procedures.js:564-599 | success sets the booking's status and updated_at, frees the slot on 'cancelled' and books it otherwise, and returns {booking_id, new_status, previous_status}; a valid change succeeds exactly when no other active booking holds the slot, and otherwise fails with the slot-taken error |
| BookingStore.Store.constructor | src/database/connection.js:78-184 | a fresh installation: empty tables, all counters at 0, the invariant holds |
| BookingStore.Store.InsertAdvisor | src/database/connection.js:82-88 | `INSERT INTO advisors` appends one row with the next SERIAL id and keeps the invariant |
| BookingStore.Store.InsertSlot | src/database/connection.js:93-102 | `INSERT INTO time_slots` succeeds exactly when the advisor exists and the (advisor, start, end) triple is new; the UNIQUE error comes first, then the foreign-key error; a failure still draws a SERIAL value |
| BookingStore.Store.InsertEmailLog | src/services/emailService.js:131-143 | the INSERT of updateEmailLog succeeds exactly when the booking exists, appending the row with the next id; otherwise it fails with the foreign-key error and only the sequence advances |
| BookingStore.Store.CreateBooking | src/database/create-stored-procedures.js:127-209 | input errors first, then 'Slot no encontrado', then 'Slot no disponible' for any status but 'free'; every error leaves all tables as they were; success appends one confirmed booking (advisor from the slot, name trimmed, e-mail trimmed and lowered), books only that slot, appends one pending confirmation log row, and replies with the new id and the name and e-mail as given (untrimmed) |
| BookingStore.Store.UpdateBookingStatus | src/database/create-stored-procedures.js:526-608 | the reply and new tables are those of `StatusUpdate`, whose rejections and success are stated by the two lemmas above; the invariant is kept |
| BookingStore.Store.ResendEmail | src/database/create-stored-procedures.js:477-520 | refuses an id NULL or 0, then an unknown booking, changing nothing; otherwise appends exactly one pending confirmation row and replies {booking_id, status: 'pending'} |
| BookingStore.Store.CreateAdmin | src/database/create-stored-procedures.js:371-418 | input errors, then 'El email ya está registrado' for a taken normalised e-mail, changing nothing; otherwise appends one admin with the lower-cased trimmed e-mail and replies with its id |
| BookingStore.NormalizedEmail | src/database/create-stored-procedures.js:392 | `LOWER(TRIM(email))` has no capitals, no outer spaces and is no longer than the input |
| BookingStore.NormalizedEmailIdempotent | src/database/create-stored-procedures.js:398 | normalising a stored e-mail again changes nothing, so a stored admin is found by its own e-mail |
| BookingInvariants.SetSlotStatusKeepsReferences | src/database/create-stored-procedures.js:181-183 | changing a slot's status keeps every slot's advisor, the UNIQUE triples and every booking's slot reference |
| BookingInvariants.BookKeepsConsistent | src/database/create-stored-procedures.js:171-188 | booking a free slot keeps all constraints, including one active booking per slot, because an active booking would have left the slot 'booked' |
| BookingInvariants.BookKeepsOneActive | src/database/create-stored-procedures.js:171-173 | the new booking of a free slot is that slot's only active booking |
| BookingInvariants.BookHoldsSlots | src/database/create-stored-procedures.js:181-183 | after booking, every active booking's slot is 'booked', the new one's included |
| BookingInvariants.SetBookingStatusKeepsReferences | src/database/create-stored-procedures.js:564-566 | a status update keeps every slot, advisor and log reference and the booking ids |
| BookingInvariants.CancelKeepsActiveInvariant | src/database/create-stored-procedures.js:569-573 | cancelling an active booking and freeing its slot keeps "one active per slot, and its slot is booked", since no other active booking held that slot |
| BookingInvariants.ActivateKeepsActiveInvariant | src/database/create-stored-procedures.js:576-588 | confirming or completing a booking when no other active booking holds its slot, and booking the slot, keeps the same invariant |
| BookingInvariants.AdvisorAppendKeepsReferences | src/database/connection.js:82-88 | a new advisor breaks no reference |
| BookingInvariants.SlotAppendKeepsConsistent | src/database/connection.js:93-102 | a new slot with an existing advisor and a fresh triple keeps all constraints |
| BookingInvariants.LogAppendKeepsConsistent | src/database/connection.js:121-130 | a log row for an existing booking keeps all constraints |
| BookingInvariants.AdminAppendKeepsConsistent | src/database/connection.js:135-141 | an admin with a new e-mail keeps the UNIQUE e-mail constraint and the rest |
| BookingInvariants.EmptyDbInvariant | src/database/connection.js:78-184 | the freshly created empty tables satisfy the invariant |
| BookingInvariants.BookStepKeepsInvariant | src/database/create-stored-procedures.js:176-188 | the whole sp_create_booking step, counters included, keeps the invariant |
| BookingInvariants.StatusStepKeepsInvariant | src/database/create-stored-procedures.js:564-588 | the whole successful status change, for each of the three target statuses, keeps the invariant |
| BookingInvariants.LogStepKeepsInvariant | src/database/create-stored-procedures.js:501-502 | appending a log row for an existing booking with the next id keeps the invariant |
| BookingInvariants.SkipKeepsInvariant | src/services/emailService.js:144-146 | a failed INSERT that still drew sequence values keeps the invariant |
| BookingInvariants.AdvisorStepKeepsInvariant | src/database/connection.js:82-88 | inserting an advisor with the next id keeps the invariant |
| BookingInvariants.SlotStepKeepsInvariant | src/database/connection.js:93-102 | inserting a valid slot with the next id keeps the invariant |
| BookingInvariants.AdminStepKeepsInvariant | src/database/create-stored-procedures.js:397-399 | inserting an admin with a new e-mail and the next id keeps the invariant |
| Queries.GetAdvisors | src/database/create-stored-procedures.js:12-45 | sp_get_advisors always succeeds and lists exactly the advisors, each once, ORDER BY id |
| Queries.OfferedSlots | src/database/create-stored-procedures.js:92-104 | exactly the advisor's 'free' slots with start >= from and end <= to, each as often as in the table, ordered by start |
| Queries.GetAvailability | src/database/create-stored-procedures.js:51-121 | the four rejections in order (advisor id NULL or 0, a NULL date, from >= to, unknown advisor); success exactly when none applies, with the advisor's name and timezone and the offered slots ordered by start |
| Queries.OfferedSlotsMembers | src/database/create-stored-procedures.js:100-103 | a slot is listed exactly when it is in the table and passes the WHERE clause |
| Queries.ViewOf | src/database/create-stored-procedures.js:236-251 | a booking joins exactly when its slot and advisor exist, keeping its id, e-mail and status and its slot's start |
| Queries.JoinBookings | src/database/create-stored-procedures.js:249-251 | the inner join lists exactly the views of the bookings whose joins succeed |
| Queries.JoinKeepsEveryBooking | src/database/create-stored-procedures.js:249-251 | under the foreign keys no booking is lost by the join |
| Queries.GetClientBookings | src/database/create-stored-procedures.js:215-261 | a blank e-mail is refused; otherwise the joined bookings whose e-mail equals LOWER(TRIM(email)), each as often as the join yields it, ordered by start |
| Queries.BookingsOf | src/database/create-stored-procedures.js:252 | the bookings made with the e-mail, each as often as in the table; distinct ids stay distinct |
| Queries.JoinedOnce | src/database/create-stored-procedures.js:249-251 | bookings with distinct ids join to rows of which none appears twice |
| Queries.ClientBookingsListedOnce | src/database/create-stored-procedures.js:215-261 | with distinct booking ids no row of a client's listing appears twice |
| Queries.ListedBookings | src/database/create-stored-procedures.js:233-252 | filtering, joining and sorting lists exactly the joined rows that pass the filter |
| Queries.ClientSeesOwnBooking | src/database/create-stored-procedures.js:252 | a booking made with an e-mail is listed when its client asks with that e-mail |
| Queries.Day | src/database/create-stored-procedures.js:459-462 | `DATE(t)` is the day containing the instant: its first second is at or before t and the next day's after |
| Queries.BookingsMatching | src/database/create-stored-procedures.js:457-462 | the rows that pass every given filter (advisor, status, DATE(start) against DATE(from) and DATE(to)); an absent filter passes all; distinct ids stay distinct |
| Queries.GetAdminBookings | src/database/create-stored-procedures.js:424-471 | always succeeds with the joined bookings passing the filters, each as often as the join yields it, ordered by start |
| Queries.AdminBookingsListedOnce | src/database/create-stored-procedures.js:424-471 | with distinct booking ids no row of the admin listing appears twice |
| Queries.AdminBookingsUnfiltered | src/database/create-stored-procedures.js:424-471 | with no filter every booking is listed |
| Queries.AdminLogin | src/database/create-stored-procedures.js:267-317 | blank e-mail, then blank password, then an unknown LOWER(TRIM(email)) are refused; otherwise the admin's id, the e-mail as given and the hash |
| Queries.AdminVerify | src/database/create-stored-procedures.js:323-365 | a blank e-mail, then an unknown one, are refused; otherwise the admin's id and the e-mail as given |
| Queries.CreatedAdminIsFound | src/database/create-stored-procedures.js:392-399 | an admin created through sp_create_admin is then verified and logged in under any spelling with the same normalised e-mail |
| Queries.AllSpacesNormalizeEmpty | src/database/create-stored-procedures.js:280-292 | a blank e-mail normalises to the empty string |
| Queries.AwaitingBookings | src/database/create-stored-procedures.js:633-642 | the distinct bookings with a pending row and no 'sent' row of the same type |
| Queries.AwaitingBookingsBound | src/database/create-stored-procedures.js:633-642 | COUNT(DISTINCT booking_id) is at most the number of pending rows |
| Queries.GetAdminStats | src/database/create-stored-procedures.js:614-656 | each counter is the COUNT of its own condition (status confirmed, cancelled, completed; slot free, booked, blocked; log sent, failed), the booking and slot counts sum to their tables, and pending is the number of distinct bookings with a pending row and no 'sent' row of that type |
| Queries.LogViewOf | src/database/create-stored-procedures.js:694-697 | a log row joins exactly when its booking, that booking's slot and its advisor exist |
| Queries.JoinLogs | src/database/create-stored-procedures.js:694-697 | the inner joins list exactly the views of the rows whose joins succeed |
| Queries.JoinKeepsEveryLog | src/database/create-stored-procedures.js:694-697 | under the foreign keys no log row is lost by the joins |
| Queries.GetEmailLogs | src/database/create-stored-procedures.js:662-709 | as written: the joined rows passing the type and status filters, each as often as it joins, newest first (the LIMIT does not cut this list; see the lemma below) |
| Queries.ListedLogs | src/database/create-stored-procedures.js:672-699 | filtering, joining and sorting lists exactly the joined log rows that pass the filter |
| Queries.LogsMatching | src/database/create-stored-procedures.js:698-699 | the log rows passing both optional filters, each as often as in the table |
| Queries.EmailLogsLimitIgnored | src/database/create-stored-procedures.js:700 | with more than 100 log rows the listing has more than 100 entries |
| Queries.UnfilteredLogsListed | src/database/create-stored-procedures.js:694-699 | with no filter every log row is listed |
| Queries.GetEmailLogsCapped | src/database/create-stored-procedures.js:689-700 | corrected: the first 100 rows of the newest-first listing, or all of them when fewer |
| Email.ReminderTimeText | src/services/emailService.js:213-214 | "24 horas" exactly for 'reminder_24h', "1 hora" for every other type |
| Email.StatusOf | src/services/emailService.js:35-50 | the logged status is 'sent' exactly when the transport delivered, and never 'pending' |
| Email.ErrorOf | src/services/emailService.js:47-52 | the logged error is the transport's message on failure and NULL on success |
| Email.SentAt | src/services/emailService.js:141 | sent_at is set, to the current time, exactly when the status is 'sent' |
| Email.InsertIsLogged | src/services/emailService.js:129-147 | the INSERT, as stated for the store, is one logged attempt: a row when the booking exists, a swallowed error otherwise |
| Email.LoggedInserts | src/services/emailService.js:131-143 | a logged attempt for an existing booking appends exactly the row (booking, type, status, error, sent_at) |
| Email.BookingForMail | src/services/emailService.js:100-114 | the resend query finds the booking with the id, with its e-mail |
| Email.BookingForMailFound | src/services/emailService.js:108-111 | under the foreign keys the joined query finds a row exactly when the booking exists |
| Email.EmailService.constructor | src/services/emailService.js:5-15 | a service that has sent nothing |
| Email.EmailService.UpdateEmailLog | src/services/emailService.js:129-147 | only inserts: one row appended when the booking exists, with sent_at set exactly for 'sent'; an insert error is swallowed; no other table changes |
| Email.EmailService.Deliver | src/services/emailService.js:32-54 | one message to the transport, then the attempt logged with its outcome; success exactly when delivered, otherwise the transport's error is passed on |
| Email.EmailService.SendConfirmationEmail | src/services/emailService.js:18-56 | the confirmation message to the client, logged as 'confirmation' 'sent' or 'failed' with the error; the error is rethrown |
| Email.EmailService.SendReminderEmail | src/services/emailService.js:59-94 | the reminder of the given type (default 'reminder_24h') to the client, logged as 'sent' or 'failed' with the error; the error is rethrown |
| Email.EmailService.ResendConfirmationEmail | src/services/emailService.js:97-126 | an unknown booking throws 'Reserva no encontrada' with nothing sent or logged; otherwise the confirmation is sent and logged for the found booking, success exactly when delivered and the transport's error rethrown |
| Email.DeliveredIsLogged | src/services/emailService.js:77 | after an attempt the booking has a 'sent' row of that type exactly when it had one or this send was delivered |
| Reminders.DueBookings | src/services/reminderService.js:23-33 | exactly the confirmed bookings, joined with slot and advisor, whose slot starts in the closed window, with no 'sent' row of the type |
| Reminders.DueRows | src/services/reminderService.js:15-34 | one selected row per due booking, in order, each naming an existing booking |
| Reminders.RowOf | src/services/reminderService.js:16-22 | the selected columns of a due booking keep its id |
| Reminders.BookingIdsFound | src/services/reminderService.js:24-25 | a booking id is among the table's ids exactly when the lookup finds it |
| Reminders.DeliveredCount | src/services/reminderService.js:39-47 | the number of delivered attempts among the first n is at most n |
| Reminders.ReminderMails | src/services/emailService.js:67-74 | one reminder message per selected row |
| Reminders.ReminderMailsAt | src/services/emailService.js:67-72 | the i-th message goes to the i-th row's client with its advisor's subject |
| Reminders.BatchLogs | src/services/reminderService.js:39-47 | one log row per attempt of a pass |
| Reminders.BatchLogsAt | src/services/emailService.js:77-90 | the i-th row logs the i-th attempt's status and error with the i-th id drawn |
| Reminders.SendOne | src/services/reminderService.js:40-46 | one attempt: 'sent' goes up exactly when delivered and 'errors' otherwise, so sent stays the count of deliveries so far, and the pass's progress grows by one row |
| Reminders.SendAll | src/services/reminderService.js:36-56 | each row attempted once in order: sent + errors equals the rows, sent counts the deliveries, one message and one log row per row |
| Reminders.SendReminders | src/services/reminderService.js:10-61 | a failed selection passes its error on and changes nothing; otherwise the pass over exactly the due rows, with its counts, messages and log rows |
| Reminders.BatchLogsSent | src/services/emailService.js:77 | a pass leaves a 'sent' row for a booking exactly when one of its attempts for that booking was delivered |
| Reminders.BatchLogsOtherKind | src/services/reminderService.js:31 | a pass writes no 'sent' row of the other reminder type |
| Reminders.RerunSkipsReminded | src/services/reminderService.js:28-33 | after a pass, a booking is due again at the same clock exactly when it was due and was not reminded |
| Reminders.RerunSelection | src/services/reminderService.js:28-33 | a second run at the same clock selects exactly the due bookings whose send failed |
| Reminders.OtherKindIsDue | src/services/reminderService.js:82-87 | a 24h pass does not change which bookings the 1h pass selects, and vice versa |
| Reminders.DueRowsSameSelection | src/services/reminderService.js:15-34 | the same due bookings over the same tables give the same rows |
| Reminders.OtherKindUnaffected | src/services/reminderService.js:122-123 | the 1h pass after the 24h pass sees the rows it would have seen first |
| Reminders.FirstPassDone | src/services/reminderService.js:118-123 | when the 1h selection fails, the store and outbox hold the 24h pass alone |
| Reminders.BothPassesDone | src/services/reminderService.js:118-123 | a 24h pass and then a 1h pass over the rows first selected leave both passes' log rows in order with consecutive ids, every other table unchanged |
| Reminders.ProcessAllReminders | src/services/reminderService.js:118-141 | the 24h pass, then the 1h pass; a 24h selection error is rethrown with nothing changed; a 1h selection error is rethrown after the 24h pass's mails and log rows; otherwise each pass's counts, the sums, both passes' mails, and the 1h log rows appended after the 24h ones with the following ids |
| Cron.ReminderCron.constructor | src/cron/reminderCron.js:6-9 | a new scheduler is not running and has no task |
| Cron.ReminderCron.Start | src/cron/reminderCron.js:12-39 | a no-op while running; otherwise one new task, started, and running |
| Cron.ReminderCron.Stop | src/cron/reminderCron.js:42-51 | a no-op while stopped; otherwise the cron task is stopped and kept, and not running |
| Cron.ReminderCron.GetStatus | src/cron/reminderCron.js:54-59 | reports the flag, and a next run exactly when running |
| Cron.ReminderCron.Tick | src/cron/reminderCron.js:23-30 | the scheduled callback runs both passes, catches their error and leaves the running state alone; the store and outbox hold what those passes did, as for processAllReminders |
| Cron.ReminderCron.RunManually | src/cron/reminderCron.js:62-72 | the result of both passes with each pass's counts and their sums, or their error rethrown; the store and outbox hold what those passes did; the running state is unchanged |
| ErrorHandler.HandleSPError | src/middleware/errorHandler.js:4-53 | the first matching rule: message containing "Error:" gives 400, SQLSTATE class 23 gives 409, ECONNREFUSED or ENOTFOUND gives 503, anything else 500 with the message hidden in production |
| ErrorHandler.ProductionHidesMessage | src/middleware/errorHandler.js:42-52 | in production only a validation reply carries the thrown message |
| ErrorHandler.RaisedMessageWins | src/middleware/errorHandler.js:18-24 | an "Error:" message is a 400 whatever its code |
| ErrorHandler.Unwrap | src/services/bookingService.js:12-16 | a reply with sql_err other than "0" becomes a thrown error with sql_msn, otherwise its data |
| ErrorHandler.RaisedProcedureErrorIs400 | src/middleware/errorHandler.js:18-24 | a procedure's raised error, unwrapped and thrown, reaches the client as a 400 with the same text |
| ErrorHandler.Pick | src/middleware/errorHandler.js:65-69 | copying one field under a new name: present exactly when the source field is |
| ErrorHandler.HandleSPResponse | src/middleware/errorHandler.js:59-98 | a body with sql_err gets success true exactly when sql_err is the string "0", and any other sql_err gets code SP_ERROR with the sql_err copied; a body without sql_err is passed unchanged; null gives the RESPONSE_ERROR body |
| ErrorHandler.ReplyEnvelope | src/middleware/errorHandler.js:62-85 | every procedure reply becomes exactly the success envelope or the SP_ERROR envelope |
| ErrorHandler.NumericZeroIsError | src/middleware/errorHandler.js:63 | the test is strict: a numeric 0 in sql_err is an error |
| ErrorHandler.CeilSeconds | src/middleware/errorHandler.js:197 | Math.ceil(windowMs / 1000) |
| ErrorHandler.Recent | src/middleware/errorHandler.js:172-182 | after the clean-up a key keeps only its times strictly after now - windowMs; a new key gets an empty list |
| ErrorHandler.RateLimiter.constructor | src/middleware/errorHandler.js:166-167 | window 15 minutes and 100 requests by default, and an empty table |
| ErrorHandler.RateLimiter.Handle | src/middleware/errorHandler.js:169-203 | 429 RATE_LIMIT_EXCEEDED with retryAfter exactly when the cleaned list holds max entries or more, now not added; otherwise now appended and next called; only the requesting key changes and no list exceeds max |
| Connection.PlaceholderList | src/database/connection.js:222-224 | `$1` to `$n`, one per parameter, in order |
| Connection.PlaceholdersDistinct | src/database/connection.js:222-224 | no two placeholders are equal |
| Connection.QueryText | src/database/connection.js:225 | `SELECT name(...)` ending in ')', and `SELECT name()` with no parameters |
| Connection.PlaceholderCount | src/database/connection.js:222-224 | the joined placeholder list holds exactly n markers |
| Connection.QueryTextMarkers | src/database/connection.js:222-225 | the query text holds exactly one marker per parameter |
| Connection.FormattedParams | src/database/connection.js:228-235 | one rendering per parameter, in order: strings quoted, others as they are |
| Connection.LogLine | src/database/connection.js:228-237 | the logged line starts `select name(` and ends with `)`; no parameters give `select name()`, one gives its rendering alone |
| Connection.LogLineAmbiguous | src/database/connection.js:228-237 | the quotes are not escaped, so two different calls log the same line |
| Connection.Pg.constructor | src/database/connection.js:40 | no pool yet, nothing sent or logged |
| Connection.Pg.ConnectDB | src/database/connection.js:42-76 | the pool is assigned before the connection test, so it is set even when the connection or table creation fails; the error is rethrown |
| Connection.Pg.GetPool | src/database/connection.js:186-193 | throws the not-initialised error exactly while no pool is set |
| Connection.Pg.Query | src/database/connection.js:195-213 | goes through the guard; with a pool sends the text and parameters and returns the answer |
| Connection.Pg.CallProcedure | src/database/connection.js:216-250 | goes through the guard; logs the quoted call, sends the `$n` query, and returns the column named after the procedure from the first row (a missing row is a TypeError) |
| SwaggerGenerator.AddSummary | src/utils/swagger-generator.js:16 | the section is only appended: what was written before is a prefix of the result; the lemmas below say when it writes nothing |
| SwaggerGenerator.AddTags | src/utils/swagger-generator.js:17 | the section is only appended: what was written before is a prefix of the result; the lemmas below say when it writes nothing |
| SwaggerGenerator.AddSecurity | src/utils/swagger-generator.js:18-21 | the section is only appended: what was written before is a prefix of the result; the lemmas below say when it writes nothing |
| SwaggerGenerator.AddParam | src/utils/swagger-generator.js:27-37 | the section is only appended: what was written before is a prefix of the result; the lemmas below say when it writes nothing |
| SwaggerGenerator.AddParams | src/utils/swagger-generator.js:26-37 | the section is only appended: what was written before is a prefix of the result; the lemmas below say when it writes nothing |
| SwaggerGenerator.AddParameters | src/utils/swagger-generator.js:24-38 | the section is only appended: what was written before is a prefix of the result; the lemmas below say when it writes nothing |
| SwaggerGenerator.AddRequiredFields | src/utils/swagger-generator.js:48-55 | the section is only appended: what was written before is a prefix of the result; the lemmas below say when it writes nothing |
| SwaggerGenerator.AddProperty | src/utils/swagger-generator.js:58-72 | the section is only appended: what was written before is a prefix of the result; the lemmas below say when it writes nothing |
| SwaggerGenerator.AddProperties | src/utils/swagger-generator.js:56-73 | the section is only appended: what was written before is a prefix of the result; the lemmas below say when it writes nothing |
| SwaggerGenerator.AddRequestBody | src/utils/swagger-generator.js:41-74 | the section is only appended: what was written before is a prefix of the result; the lemmas below say when it writes nothing |
| SwaggerGenerator.AddResponse | src/utils/swagger-generator.js:79-88 | the section is only appended: what was written before is a prefix of the result; the lemmas below say when it writes nothing |
| SwaggerGenerator.AddResponses | src/utils/swagger-generator.js:77-89 | the section is only appended: what was written before is a prefix of the result; the lemmas below say when it writes nothing |
| SwaggerGenerator.AddResponseSection | src/utils/swagger-generator.js:77-89 | the section is only appended: what was written before is a prefix of the result; the lemmas below say when it writes nothing |
| SwaggerGenerator.SecurityItems | src/utils/swagger-generator.js:18-21 | one item per requirement, naming its first key |
| SwaggerGenerator.JSDocFrame | src/utils/swagger-generator.js:13-92 | every comment starts with the @swagger header for its path and method and ends with " */" |
| SwaggerGenerator.HeadSectionsOnlyWhenPresent | src/utils/swagger-generator.js:16-21 | summary only when truthy, tags and security only when present |
| SwaggerGenerator.BlocksOnlyWhenPresent | src/utils/swagger-generator.js:24-89 | parameters only when a non-empty list, requestBody and responses only when present |
| SwaggerGenerator.FalsySectionsOmitted | src/utils/swagger-generator.js:16-38 | an empty summary or empty parameter list writes nothing |
| SwaggerGenerator.FalsyParamFieldsOmitted | src/utils/swagger-generator.js:32-35 | a parameter's minimum 0 and empty format are omitted |
| SwaggerGenerator.PropertyMinimumZeroOmitted | src/utils/swagger-generator.js:56-73 | a property's minimum 0 is omitted |
| SwaggerGenerator.PropertyLengthZeroOmitted | src/utils/swagger-generator.js:56-73 | a property's minLength 0 and maxLength 0 are omitted |
| SwaggerGenerator.RequiredAddsOneLine | src/utils/swagger-generator.js:29 | a required parameter's text is longer than the same parameter's unrequired text by exactly the "required: true" line |
| SwaggerGenerator.ParamsInOrder | src/utils/swagger-generator.js:26-37 | parameters are written in order: two lists write as their concatenation |
| SwaggerGenerator.ResponseSchemaBlock | src/utils/swagger-generator.js:80-88 | a response's content/$ref block is written exactly when it has a schema, after its code and description |
| SwaggerGenerator.AppendParam | src/utils/swagger-generator.js:27-37 | the statements for one parameter write its text |
| SwaggerGenerator.AppendParameters | src/utils/swagger-generator.js:26-37 | the forEach over the parameters writes each one in order |
| SwaggerGenerator.AppendRequiredFields | src/utils/swagger-generator.js:48-55 | the required list, one item per field |
| SwaggerGenerator.AppendProperty | src/utils/swagger-generator.js:58-72 | the statements for one property write its text |
| SwaggerGenerator.AppendProperties | src/utils/swagger-generator.js:56-73 | the forEach over the properties writes each one in order |
| SwaggerGenerator.AppendRequestBody | src/utils/swagger-generator.js:41-74 | the requestBody block |
| SwaggerGenerator.AppendResponse | src/utils/swagger-generator.js:79-88 | one response's lines |
| SwaggerGenerator.AppendResponses | src/utils/swagger-generator.js:77-89 | the responses in order |
| SwaggerGenerator.GenerateJSDoc | src/utils/swagger-generator.js:12-93 | the accumulated comment equals the section-by-section definition, so it has the frame and section properties above |
| SwaggerGenerator.PathDocsKeys | src/utils/swagger-generator.js:102-104 | one path adds exactly its operations' keys |
| SwaggerGenerator.FileDocsKeys | src/utils/swagger-generator.js:98-109 | the keys are exactly "METHOD path" for the table's operations |
| SwaggerGenerator.GenerateForFile | src/utils/swagger-generator.js:98-109 | the nested loops fill exactly the map defined over the route table; the argument is ignored |
| SwaggerGenerator.PathDocsOther | src/utils/swagger-generator.js:103-104 | keys a path does not write keep their comments |
| SwaggerGenerator.PathDocsValue | src/utils/swagger-generator.js:103-104 | each operation's key holds its own comment |
| SwaggerGenerator.FileDocsValue | src/utils/swagger-generator.js:98-109 | with distinct keys, every operation's key holds generateJSDoc of its config |
| SwaggerGenerator.FindOperation | src/utils/swagger-generator.js:115 | the lookup of swaggerRoutes[path][method] finds a config exactly when the table has that operation |
| SwaggerGenerator.FindMethod | src/utils/swagger-generator.js:115 | a method lookup within one path finds it exactly when present |
| SwaggerGenerator.GetJSDocForRoute | src/utils/swagger-generator.js:114-119 | null exactly when the path or method is absent, otherwise the comment of the stored config with its header |
| SwaggerGenerator.RouteDocAgreesWithFile | src/utils/swagger-generator.js:103-116 | the comment for a route equals that route's entry in generateForFile |
| SwaggerInjector.AddOperationsKeys | src/middleware/swagger-injector.js:15-20 | one path's loop creates that path only when it has methods, and adds exactly its verbs |
| SwaggerInjector.AddOperationsValue | src/middleware/swagger-injector.js:19 | each verb of the path holds its config |
| SwaggerInjector.AddOperationsOther | src/middleware/swagger-injector.js:16-19 | entries the loop does not write are kept |
| SwaggerInjector.InjectedPathsHasPath | src/middleware/swagger-injector.js:14-21 | a path is a key exactly when the table gives it at least one method |
| SwaggerInjector.InjectedPathsKeys | src/middleware/swagger-injector.js:14-21 | a path's verbs are exactly the table's methods for it |
| SwaggerInjector.InjectedPathsValue | src/middleware/swagger-injector.js:14-21 | with distinct operations, each verb maps to the table's config |
| SwaggerInjector.InjectSwaggerDocs | src/middleware/swagger-injector.js:11-24 | the nested loops build exactly the map defined over the route table |
| SwaggerInjector.MergePaths | src/middleware/swagger-injector.js:36-39 | the spread merge: keys of both, the injected entry replaces a same-keyed one whole, other existing entries are kept |
| SwaggerInjector.Exchange.constructor | src/middleware/swagger-injector.js:29 | a request with its path and the served specification, next not yet called |
| SwaggerInjector.Exchange.SwaggerInjector | src/middleware/swagger-injector.js:29-44 | the specification changes only for "/api-docs" or "/api-docs/" with a specification present, where its paths become the merge; next is called exactly once |
| Seqs.Filter | src/database/create-stored-procedures.js:698-699 | a WHERE clause: the rows that pass, each as often as in the table, in order |
| Seqs.FilterKeysUnique | src/database/create-stored-procedures.js:457-462 | a WHERE clause never repeats a row, so unique ids stay unique |
| Seqs.SortBy | src/database/create-stored-procedures.js:98 | ORDER BY: sorted by the key and a permutation of the rows |
| Seqs.CountIf | src/database/create-stored-procedures.js:625-645 | `COUNT(*) ... WHERE`: never more than the rows of the table |
| Seqs.InsertBy | src/database/create-stored-procedures.js:98 | inserting into a sorted list keeps it sorted and adds exactly that element |
| Seqs.SortByMembers | src/database/create-stored-procedures.js:98 | ORDER BY lists exactly the rows of the table |
| Seqs.CountIfPartition | src/database/create-stored-procedures.js:625-632 | three disjoint, covering conditions count to the table size |

## Left out

- The HTTP layer (routes, express-validator, helmet, cors, express-rate-limit), JWT and bcrypt, winston logging and `testConnection`: not part of this model.
- The e-mail transport (nodemailer) is an input: each attempt's outcome is given. The HTML templates and `toLocaleString` time zone formatting are left out, except the 24h/1h text choice.
- Row locking (`FOR UPDATE`) and concurrent requests: every procedure is one atomic step.
- The real database: the pg `Pool`, its configuration and the DDL execution. The tables are sequences in insertion order and SERIAL counters are fields.
- Wall-clock reads: `now` is a parameter in seconds. `created_at` and `updated_at` are kept only on bookings and e-mail logs.
- VARCHAR length limits and the `attempts` column are not checked. `attempts` is always its default 0.
- `LOWER` and `toUpperCase` are modelled on ASCII letters only.
- The JavaScript objects of the Swagger helpers are sequences of entries, so their key order is the sequence order. The route table is a parameter, because the modules read it from a configuration file.
- SwaggerGenerator.GenerateForFile: takes its unused `routes` argument as an opaque type parameter.
- SwaggerInjector.InjectSwaggerDocs: "exactly the table's path keys" holds only for paths with at least one method. The loop never creates a path whose methods object is empty, and the model keeps that behaviour.
- The served Swagger specification is modelled by its `paths` only.
- Cron.ReminderCron.GetStatus: the node-cron schedule expression and `nextDate()` are not modelled. The next run time is an input.
- Cron.ReminderCron.Tick: the caught error is returned instead of logged.
- Reminders.ProcessAllReminders: both passes read one clock `now`. In the source each selection reads `NOW()` when its own query runs, which for the 1h pass is after the 24h pass has sent its mails.
- SwaggerGenerator.GetJSDocForRoute: a JavaScript object lookup also finds inherited keys such as `toString` or `constructor`, so such a path or method name is truthy there. The route table here holds only its own entries, and such a name gives null.
- The reminder selection has no ORDER BY, so the model takes the rows in table order.
- ErrorHandler.HandleSPResponse: a body other than an object (a string passed to `res.json`) is passed through unchanged, as any value without `sql_err`. Numbers are integers.
- The separate lazily created cron instance of the reminders route, `seed.js` and `migrate.js` are not part of this model.

## Findings

| source | as written | input that shows it | evidently intended | confidence | as-written member | corrected member |
|---|---|---|---|---|---|---|
| src/database/create-stored-procedures.js:700 | `LIMIT 100` applies to the one row that `json_agg` produces, so the listing is never cut | more than 100 e-mail log rows, no filter: all of them are returned | at most the 100 newest rows | not executed | Queries.EmailLogsLimitIgnored | Queries.GetEmailLogsCapped |
