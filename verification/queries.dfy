/**
 * The read-only stored procedures: sp_get_advisors, sp_get_availability,
 * sp_get_client_bookings, sp_admin_login, sp_admin_verify,
 * sp_get_admin_bookings, sp_get_admin_stats and sp_get_email_logs.  Each is one
 * SELECT over the tables, so each is a function of the database state.
 */
module Queries {
  import opened Common
  import opened Schema
  import opened Tables
  import opened BookingInvariants
  import opened BookingStore
  import Text
  import Seqs

  const MsgAdvisorsListed := "Asesores obtenidos exitosamente"
  const MsgInvalidAdvisorId := "Error: ID de asesor inválido."
  const MsgInvalidDates := "Error: Fechas de consulta inválidas."
  const MsgDateOrder := "Error: La fecha de inicio debe ser menor a la fecha de fin."
  const MsgAdvisorNotFound := "Error: Asesor no encontrado."
  const MsgAvailabilityListed := "Disponibilidad obtenida exitosamente"
  const MsgBookingsListed := "Reservas obtenidas exitosamente"
  const MsgInvalidPassword := "Error: Contraseña inválida."
  const MsgBadCredentials := "Error: Credenciales inválidas."
  const MsgAdminFound := "Admin encontrado"
  const MsgUserNotFound := "Error: Usuario no encontrado."
  const MsgAdminVerified := "Admin verificado"
  const MsgStatsComputed := "Estadísticas obtenidas exitosamente"
  const MsgLogsListed := "Logs de email obtenidos exitosamente"

  // --------------------------------------------------------------- advisors

  /** sp_get_advisors: every advisor, ORDER BY id. */
  function GetAdvisors(d: Db): (r: SpReply<seq<Advisor>>)
    ensures r.SpOk? && r.message == MsgAdvisorsListed
    ensures Seqs.SortedBy(r.data, AdvisorKey)
    ensures multiset(r.data) == multiset(d.advisors)
  {
    SpOk(MsgAdvisorsListed, Seqs.SortBy(d.advisors, AdvisorKey))
  }

  // ----------------------------------------------------------- availability

  datatype Availability = Availability(advisorId: int, name: string, timezone: string, availableSlots: seq<TimeSlot>)

  /** The WHERE clause of the available-slots subquery. */
  predicate Offered(s: TimeSlot, advisorId: int, from: int, to: int) {
    s.advisorId == advisorId && from <= s.startUtc && s.endUtc <= to && s.status == Free
  }

  function SlotStart(s: TimeSlot): int { s.startUtc }

  /** The advisor's free slots lying inside [from, to], ORDER BY start_utc. */
  function OfferedSlots(slots: seq<TimeSlot>, advisorId: int, from: int, to: int): (r: seq<TimeSlot>)
    ensures Seqs.SortedBy(r, SlotStart)
    ensures forall s :: multiset(r)[s] == if Offered(s, advisorId, from, to) then multiset(slots)[s] else 0
  {
    Seqs.SortBy(Seqs.Filter(slots, s => Offered(s, advisorId, from, to)), SlotStart)
  }

  /**
   * sp_get_availability: the checks on the advisor id, on the two dates and on
   * their order come before the advisor is looked up; the reply carries the
   * advisor and the slots it offers in the window.
   */
  function GetAvailability(d: Db, advisorId: Option<int>, from: Option<int>, to: Option<int>): (r: SpReply<Availability>)
    ensures IsNullOrZero(advisorId) ==> r == Raise(MsgInvalidAdvisorId)
    ensures !IsNullOrZero(advisorId) && (from.None? || to.None?) ==> r == Raise(MsgInvalidDates)
    ensures !IsNullOrZero(advisorId) && from.Some? && to.Some? && from.value >= to.value ==> r == Raise(MsgDateOrder)
    ensures && !IsNullOrZero(advisorId) && from.Some? && to.Some? && from.value < to.value
            && FindAdvisor(d.advisors, advisorId.value).None?
            ==> r == Raise(MsgAdvisorNotFound)
    ensures r.SpOk? <==> && !IsNullOrZero(advisorId) && from.Some? && to.Some? && from.value < to.value
                         && FindAdvisor(d.advisors, advisorId.value).Some?
    ensures r.SpOk? ==>
              var a := FindAdvisor(d.advisors, advisorId.value).value;
              && r.message == MsgAvailabilityListed
              && r.data.advisorId == a.id && r.data.name == a.name && r.data.timezone == a.timezone
              && Seqs.SortedBy(r.data.availableSlots, SlotStart)
              && (forall s :: multiset(r.data.availableSlots)[s]
                              == if Offered(s, advisorId.value, from.value, to.value) then multiset(d.slots)[s] else 0)
  {
    if IsNullOrZero(advisorId) then Raise(MsgInvalidAdvisorId)
    else if from.None? || to.None? then Raise(MsgInvalidDates)
    else if from.value >= to.value then Raise(MsgDateOrder)
    else match FindAdvisor(d.advisors, advisorId.value)
      case None => Raise(MsgAdvisorNotFound)
      case Some(a) =>
        SpOk(MsgAvailabilityListed,
             Availability(a.id, a.name, a.timezone, OfferedSlots(d.slots, advisorId.value, from.value, to.value)))
  }

  /** A slot is offered exactly when it is a free slot of the advisor inside the window. */
  lemma OfferedSlotsMembers(slots: seq<TimeSlot>, advisorId: int, from: int, to: int, s: TimeSlot)
    ensures s in OfferedSlots(slots, advisorId, from, to) <==> s in slots && Offered(s, advisorId, from, to)
  {
    var r := OfferedSlots(slots, advisorId, from, to);
    assert s in r <==> multiset(r)[s] > 0;
    assert s in slots <==> multiset(slots)[s] > 0;
  }

  // --------------------------------------------------------- booking lists

  /** One row of a booking listing (the bookings ⋈ time_slots ⋈ advisors join). */
  datatype BookingView = BookingView(id: int, clientName: string, clientEmail: string, advisorName: string,
                                     startUtc: int, endUtc: int, status: BookingStatus, createdAt: int)

  function ViewStart(v: BookingView): int { v.startUtc }

  /** The inner joins on the booking's slot and advisor; None when either row is missing. */
  function ViewOf(d: Db, b: Booking): (r: Option<BookingView>)
    ensures r.Some? <==> FindSlot(d.slots, b.slotId).Some? && FindAdvisor(d.advisors, b.advisorId).Some?
    ensures r.Some? ==> r.value.id == b.id && r.value.clientEmail == b.clientEmail && r.value.status == b.status
                        && r.value.startUtc == FindSlot(d.slots, b.slotId).value.startUtc
  {
    match (FindSlot(d.slots, b.slotId), FindAdvisor(d.advisors, b.advisorId))
    case (Some(s), Some(a)) =>
      Some(BookingView(b.id, b.clientName, b.clientEmail, a.name, s.startUtc, s.endUtc, b.status, b.createdAt))
    case _ => None
  }

  /** The joined rows of the given bookings, dropping those whose join finds nothing. */
  function JoinBookings(d: Db, bs: seq<Booking>): (r: seq<BookingView>)
    ensures |r| <= |bs|
    ensures forall v :: v in r <==> exists i :: 0 <= i < |bs| && ViewOf(d, bs[i]) == Some(v)
  {
    if bs == [] then []
    else
      var rest := JoinBookings(d, bs[1..]);
      assert forall i :: 0 < i < |bs| ==> bs[i] == bs[1..][i - 1];
      match ViewOf(d, bs[0])
      case Some(v) => [v] + rest
      case None => rest
  }

  /** Under the foreign keys, the joins of sp_get_client_bookings and sp_get_admin_bookings drop no booking. */
  lemma {:induction false} JoinKeepsEveryBooking(d: Db, bs: seq<Booking>)
    requires BookingsHaveSlots(d.bookings, d.slots, d.advisors)
    requires forall i :: 0 <= i < |bs| ==> bs[i] in d.bookings
    ensures |JoinBookings(d, bs)| == |bs|
  {
    if bs != [] {
      var k :| 0 <= k < |d.bookings| && d.bookings[k] == bs[0];
      assert FindSlot(d.slots, bs[0].slotId).Some?;
      JoinKeepsEveryBooking(d, bs[1..]);
    }
  }

  /** Bookings with distinct ids join to distinct rows: no row of the join appears twice. */
  lemma {:induction false} JoinedOnce(d: Db, bs: seq<Booking>)
    requires Seqs.KeysUnique(bs, BookingKey)
    ensures forall v :: multiset(JoinBookings(d, bs))[v] <= 1
    decreases |bs|
  {
    if bs != [] {
      assert forall i :: 0 <= i < |bs| - 1 ==> bs[1..][i] == bs[i + 1];
      JoinedOnce(d, bs[1..]);
      var rest := JoinBookings(d, bs[1..]);
      match ViewOf(d, bs[0])
      case Some(v0) =>
        assert v0 !in rest;
        assert JoinBookings(d, bs) == [v0] + rest;
      case None =>
    }
  }

  /** `b.client_email = LOWER(TRIM(e))` */
  predicate MadeBy(b: Booking, email: string) {
    b.clientEmail == NormalizedEmail(email)
  }

  /**
   * sp_get_client_bookings: the bookings made with the normalised e-mail,
   * joined with their slot and advisor, ORDER BY start_utc; a missing or blank
   * e-mail is refused.
   */
  function GetClientBookings(d: Db, email: Option<string>): (r: SpReply<seq<BookingView>>)
    ensures Text.AllSpaces(Coalesce(email)) ==> r == Raise(MsgInvalidClientEmail)
    ensures r.SpOk? <==> !Text.AllSpaces(Coalesce(email))
    ensures r.SpOk? ==>
              && r.message == MsgBookingsListed
              && Seqs.SortedBy(r.data, ViewStart)
              && (forall v :: v in r.data <==>
                    exists i :: 0 <= i < |d.bookings| && MadeBy(d.bookings[i], email.value) && ViewOf(d, d.bookings[i]) == Some(v))
              && multiset(r.data) == multiset(JoinBookings(d, BookingsOf(d, email.value)))
  {
    Text.BlankIffAllSpaces(Coalesce(email));
    if Text.IsBlank(Coalesce(email)) then Raise(MsgInvalidClientEmail)
    else
      var mine := BookingsOf(d, email.value);
      var rows := JoinBookings(d, mine);
      var sorted := Seqs.SortBy(rows, ViewStart);
      ListedBookings(d, mine, rows, sorted, b => MadeBy(b, email.value));
      SpOk(MsgBookingsListed, sorted)
  }

  /** The bookings made with the normalised e-mail, each as often as in the table, in table order. */
  function BookingsOf(d: Db, email: string): (r: seq<Booking>)
    ensures forall b :: multiset(r)[b] == if MadeBy(b, email) then multiset(d.bookings)[b] else 0
    ensures forall b :: b in r <==> b in d.bookings && MadeBy(b, email)
    ensures Seqs.KeysUnique(d.bookings, BookingKey) ==> Seqs.KeysUnique(r, BookingKey)
  {
    Seqs.FilterKeysUnique(d.bookings, b => MadeBy(b, email), BookingKey);
    Seqs.Filter(d.bookings, b => MadeBy(b, email))
  }

  /** What a filtered, joined and sorted booking listing holds. */
  lemma ListedBookings(d: Db, filtered: seq<Booking>, rows: seq<BookingView>, sorted: seq<BookingView>, p: Booking -> bool)
    requires forall b :: b in filtered <==> b in d.bookings && p(b)
    requires rows == JoinBookings(d, filtered) && multiset(sorted) == multiset(rows)
    ensures forall v :: v in sorted <==>
              exists i :: 0 <= i < |d.bookings| && p(d.bookings[i]) && ViewOf(d, d.bookings[i]) == Some(v)
  {
    forall v ensures v in sorted <==>
                     exists i :: 0 <= i < |d.bookings| && p(d.bookings[i]) && ViewOf(d, d.bookings[i]) == Some(v) {
      assert v in sorted <==> v in multiset(sorted);
      assert v in rows <==> v in multiset(rows);
      if v in rows {
        var j :| 0 <= j < |filtered| && ViewOf(d, filtered[j]) == Some(v);
        assert filtered[j] in d.bookings;
        var i :| 0 <= i < |d.bookings| && d.bookings[i] == filtered[j];
        assert p(d.bookings[i]) && ViewOf(d, d.bookings[i]) == Some(v);
      }
      if exists i :: 0 <= i < |d.bookings| && p(d.bookings[i]) && ViewOf(d, d.bookings[i]) == Some(v) {
        var i :| 0 <= i < |d.bookings| && p(d.bookings[i]) && ViewOf(d, d.bookings[i]) == Some(v);
        assert d.bookings[i] in filtered;
        var j :| 0 <= j < |filtered| && filtered[j] == d.bookings[i];
        assert v in rows;
      }
    }
  }

  /**
   * A client finds every booking made with their e-mail: sp_create_booking
   * stores `LOWER(TRIM(e))`, which is what the listing compares with.
   */
  lemma ClientSeesOwnBooking(d: Db, email: string, k: int)
    requires Invariant(d) && !Text.AllSpaces(email)
    requires 0 <= k < |d.bookings| && d.bookings[k].clientEmail == Text.Lower(Text.Trim(email))
    ensures GetClientBookings(d, Some(email)).SpOk?
    ensures exists v :: v in GetClientBookings(d, Some(email)).data && v.id == d.bookings[k].id
  {
    var b := d.bookings[k];
    assert FindSlot(d.slots, b.slotId).Some?;
    var v := ViewOf(d, b).value;
    assert MadeBy(d.bookings[k], email) && ViewOf(d, d.bookings[k]) == Some(v);
    assert v in GetClientBookings(d, Some(email)).data;
  }

  /** `DATE(t)`: the day a timestamp (seconds since the epoch) falls on. */
  function Day(t: int): (day: int)
    ensures day * 86400 <= t < day * 86400 + 86400
  {
    t / 86400
  }

  /** The WHERE clause of sp_get_admin_bookings; an absent filter accepts every row. */
  predicate AdminFilter(d: Db, b: Booking, advisorId: Option<int>, status: Option<string>, from: Option<int>, to: Option<int>) {
    && (advisorId.None? || b.advisorId == advisorId.value)
    && (status.None? || BookingStatusName(b.status) == status.value)
    && (from.None? || (FindSlot(d.slots, b.slotId).Some? && Day(FindSlot(d.slots, b.slotId).value.startUtc) >= Day(from.value)))
    && (to.None? || (FindSlot(d.slots, b.slotId).Some? && Day(FindSlot(d.slots, b.slotId).value.startUtc) <= Day(to.value)))
  }

  /** The bookings that pass every given filter, in table order. */
  function BookingsMatching(d: Db, advisorId: Option<int>, status: Option<string>, from: Option<int>, to: Option<int>)
    : (r: seq<Booking>)
    ensures forall b :: multiset(r)[b] == if AdminFilter(d, b, advisorId, status, from, to) then multiset(d.bookings)[b] else 0
    ensures forall b :: b in r <==> b in d.bookings && AdminFilter(d, b, advisorId, status, from, to)
    ensures Seqs.KeysUnique(d.bookings, BookingKey) ==> Seqs.KeysUnique(r, BookingKey)
  {
    Seqs.FilterKeysUnique(d.bookings, b => AdminFilter(d, b, advisorId, status, from, to), BookingKey);
    Seqs.Filter(d.bookings, b => AdminFilter(d, b, advisorId, status, from, to))
  }

  /** sp_get_admin_bookings: the joined bookings that pass every given filter, ORDER BY start_utc. */
  function GetAdminBookings(d: Db, advisorId: Option<int>, status: Option<string>, from: Option<int>, to: Option<int>)
    : (r: SpReply<seq<BookingView>>)
    ensures r.SpOk? && r.message == MsgBookingsListed
    ensures Seqs.SortedBy(r.data, ViewStart)
    ensures forall v :: v in r.data <==>
              exists i :: 0 <= i < |d.bookings| && AdminFilter(d, d.bookings[i], advisorId, status, from, to)
                          && ViewOf(d, d.bookings[i]) == Some(v)
    ensures multiset(r.data) == multiset(JoinBookings(d, BookingsMatching(d, advisorId, status, from, to)))
    ensures |r.data| <= |d.bookings|
  {
    var chosen := BookingsMatching(d, advisorId, status, from, to);
    var rows := JoinBookings(d, chosen);
    var sorted := Seqs.SortBy(rows, ViewStart);
    ListedBookings(d, chosen, rows, sorted, b => AdminFilter(d, b, advisorId, status, from, to));
    SpOk(MsgBookingsListed, sorted)
  }

  /** With unique booking ids, a client's listing shows each booking at most once. */
  lemma ClientBookingsListedOnce(d: Db, email: string)
    requires Seqs.KeysUnique(d.bookings, BookingKey) && !Text.AllSpaces(email)
    ensures forall v :: multiset(GetClientBookings(d, Some(email)).data)[v] <= 1
  {
    JoinedOnce(d, BookingsOf(d, email));
  }

  /** With unique booking ids, the admin listing shows each booking at most once. */
  lemma AdminBookingsListedOnce(d: Db, advisorId: Option<int>, status: Option<string>, from: Option<int>, to: Option<int>)
    requires Seqs.KeysUnique(d.bookings, BookingKey)
    ensures forall v :: multiset(GetAdminBookings(d, advisorId, status, from, to).data)[v] <= 1
  {
    JoinedOnce(d, BookingsMatching(d, advisorId, status, from, to));
  }

  /** Without filters, the admin listing holds one row per booking. */
  lemma AdminBookingsUnfiltered(d: Db)
    requires BookingsHaveSlots(d.bookings, d.slots, d.advisors)
    ensures |GetAdminBookings(d, None, None, None, None).data| == |d.bookings|
  {
    var chosen := BookingsMatching(d, None, None, None, None);
    assert forall x :: multiset(chosen)[x] == multiset(d.bookings)[x];
    assert multiset(chosen) == multiset(d.bookings);
    assert |chosen| == |multiset(chosen)|;
    forall i | 0 <= i < |chosen| ensures chosen[i] in d.bookings {
      assert chosen[i] in chosen;
    }
    JoinKeepsEveryBooking(d, chosen);
  }

  // ------------------------------------------------------------------ admins

  datatype AdminFound = AdminFound(adminId: int, email: string, passwordHash: string)
  datatype AdminVerified = AdminVerified(adminId: int, email: string)

  /**
   * sp_admin_login: finds the admin by `LOWER(TRIM(email))` and returns its
   * stored hash (the password itself is checked by the caller); the e-mail in
   * the reply is the one given, not the stored one.
   */
  function AdminLogin(d: Db, email: Option<string>, password: Option<string>): (r: SpReply<AdminFound>)
    ensures Text.AllSpaces(Coalesce(email)) ==> r == Raise(MsgInvalidEmail)
    ensures !Text.AllSpaces(Coalesce(email)) && Text.AllSpaces(Coalesce(password)) ==> r == Raise(MsgInvalidPassword)
    ensures r.SpOk? <==> && !Text.AllSpaces(Coalesce(email)) && !Text.AllSpaces(Coalesce(password))
                         && FindAdminByEmail(d.admins, NormalizedEmail(email.value)).Some?
    ensures r.SpOk? ==>
              var a := FindAdminByEmail(d.admins, NormalizedEmail(email.value)).value;
              r == SpOk(MsgAdminFound, AdminFound(a.id, email.value, a.passwordHash))
    ensures && !Text.AllSpaces(Coalesce(email)) && !Text.AllSpaces(Coalesce(password))
            && FindAdminByEmail(d.admins, NormalizedEmail(email.value)).None?
            ==> r == Raise(MsgBadCredentials)
  {
    Text.BlankIffAllSpaces(Coalesce(email));
    Text.BlankIffAllSpaces(Coalesce(password));
    if Text.IsBlank(Coalesce(email)) then Raise(MsgInvalidEmail)
    else if Text.IsBlank(Coalesce(password)) then Raise(MsgInvalidPassword)
    else match FindAdminByEmail(d.admins, NormalizedEmail(email.value))
      case None => Raise(MsgBadCredentials)
      case Some(a) => SpOk(MsgAdminFound, AdminFound(a.id, email.value, a.passwordHash))
  }

  /** sp_admin_verify: the id of the admin with the normalised e-mail. */
  function AdminVerify(d: Db, email: Option<string>): (r: SpReply<AdminVerified>)
    ensures Text.AllSpaces(Coalesce(email)) ==> r == Raise(MsgInvalidEmail)
    ensures r.SpOk? <==> !Text.AllSpaces(Coalesce(email)) && FindAdminByEmail(d.admins, NormalizedEmail(email.value)).Some?
    ensures r.SpOk? ==>
              r == SpOk(MsgAdminVerified, AdminVerified(FindAdminByEmail(d.admins, NormalizedEmail(email.value)).value.id, email.value))
    ensures !Text.AllSpaces(Coalesce(email)) && FindAdminByEmail(d.admins, NormalizedEmail(email.value)).None?
            ==> r == Raise(MsgUserNotFound)
  {
    Text.BlankIffAllSpaces(Coalesce(email));
    if Text.IsBlank(Coalesce(email)) then Raise(MsgInvalidEmail)
    else match FindAdminByEmail(d.admins, NormalizedEmail(email.value))
      case None => Raise(MsgUserNotFound)
      case Some(a) => SpOk(MsgAdminVerified, AdminVerified(a.id, email.value))
  }

  /**
   * An admin created by sp_create_admin is then found by sp_admin_verify and
   * sp_admin_login, under the e-mail it was created with or any spelling with
   * the same `LOWER(TRIM(...))`, and login returns the stored hash.
   */
  lemma CreatedAdminIsFound(d: Db, email: string, hash: string, other: string, password: string)
    requires CreateAdminInputError(Some(email), Some(hash)).None?
    requires FindAdminByEmail(d.admins, NormalizedEmail(email)).None?
    requires NormalizedEmail(other) == NormalizedEmail(email) && !Text.AllSpaces(password)
    ensures var d' := d.(admins := d.admins + [Admin(d.adminSeq + 1, NormalizedEmail(email), hash)], adminSeq := d.adminSeq + 1);
            && AdminVerify(d', Some(other)) == SpOk(MsgAdminVerified, AdminVerified(d.adminSeq + 1, other))
            && AdminLogin(d', Some(other), Some(password)) == SpOk(MsgAdminFound, AdminFound(d.adminSeq + 1, other, hash))
  {
    var a := Admin(d.adminSeq + 1, NormalizedEmail(email), hash);
    var admins' := d.admins + [a];
    assert admins'[|admins'| - 1] == a;
    assert FindAdminByEmail(admins', NormalizedEmail(other)) == Some(a);
    if Text.AllSpaces(other) {
      AllSpacesNormalizeEmpty(other);
      Text.BlankIffAllSpaces(email);
      assert false;
    }
  }

  /** A string of spaces only normalises to the empty string. */
  lemma AllSpacesNormalizeEmpty(s: string)
    requires Text.AllSpaces(s)
    ensures NormalizedEmail(s) == []
  {
    Text.BlankIffAllSpaces(s);
    assert |Text.Lower(Text.Trim(s))| == |Text.Trim(s)|;
  }

  // ------------------------------------------------------------------- stats

  datatype AdminStats = AdminStats(
    totalBookings: nat, confirmedBookings: nat, cancelledBookings: nat, completedBookings: nat,
    totalAdvisors: nat,
    availableSlots: nat, bookedSlots: nat, blockedSlots: nat,
    pendingEmails: nat, sentEmails: nat, failedEmails: nat)

  predicate IsConfirmed(b: Booking) { b.status == Confirmed }
  predicate IsCancelled(b: Booking) { b.status == Cancelled }
  predicate IsCompleted(b: Booking) { b.status == Completed }
  predicate IsFreeSlot(s: TimeSlot) { s.status == Free }
  predicate IsBookedSlot(s: TimeSlot) { s.status == Booked }
  predicate IsBlockedSlot(s: TimeSlot) { s.status == Blocked }
  predicate IsPendingLog(l: EmailLog) { l.status == Pending }
  predicate IsSentLog(l: EmailLog) { l.status == Sent }
  predicate IsFailedLog(l: EmailLog) { l.status == Failed }

  /** A pending row with no 'sent' row for the same booking and type. */
  predicate AwaitingSend(logs: seq<EmailLog>, l: EmailLog) {
    l.status == Pending && !HasSentLog(logs, l.bookingId, l.kind)
  }

  /** The booking ids of the rows of `rows` awaiting a send (in the whole table `logs`). */
  function AwaitingBookings(logs: seq<EmailLog>, rows: seq<EmailLog>): (r: set<int>)
    ensures forall id :: id in r <==> exists i :: 0 <= i < |rows| && AwaitingSend(logs, rows[i]) && rows[i].bookingId == id
  {
    if rows == [] then {}
    else
      var rest := AwaitingBookings(logs, rows[..|rows| - 1]);
      var last := rows[|rows| - 1];
      assert forall i :: 0 <= i < |rows| - 1 ==> rows[..|rows| - 1][i] == rows[i];
      if AwaitingSend(logs, last) then rest + {last.bookingId} else rest
  }

  /** Counting distinct bookings never exceeds counting the pending rows. */
  lemma {:induction false} AwaitingBookingsBound(logs: seq<EmailLog>, rows: seq<EmailLog>)
    ensures |AwaitingBookings(logs, rows)| <= Seqs.CountIf(rows, IsPendingLog)
  {
    if rows != [] {
      var init := rows[..|rows| - 1];
      var last := rows[|rows| - 1];
      assert rows == init + [last];
      AwaitingBookingsBound(logs, init);
      Seqs.CountIfAppend(init, [last], IsPendingLog);
      assert Seqs.CountIf([last], IsPendingLog) == if IsPendingLog(last) then 1 else 0;
    }
  }

  /**
   * sp_get_admin_stats: row counts per booking status, per slot status and per
   * e-mail status, except pending_emails, which counts distinct bookings with a
   * pending row not yet followed by a 'sent' row of the same type.
   */
  function GetAdminStats(d: Db): (r: SpReply<AdminStats>)
    ensures r.SpOk? && r.message == MsgStatsComputed
    ensures r.data.totalBookings == |d.bookings| && r.data.totalAdvisors == |d.advisors|
    ensures r.data.confirmedBookings + r.data.cancelledBookings + r.data.completedBookings == r.data.totalBookings
    ensures r.data.availableSlots + r.data.bookedSlots + r.data.blockedSlots == |d.slots|
    ensures r.data.confirmedBookings == Seqs.CountIf(d.bookings, IsConfirmed)
    ensures r.data.cancelledBookings == Seqs.CountIf(d.bookings, IsCancelled)
    ensures r.data.completedBookings == Seqs.CountIf(d.bookings, IsCompleted)
    ensures r.data.availableSlots == Seqs.CountIf(d.slots, IsFreeSlot)
    ensures r.data.bookedSlots == Seqs.CountIf(d.slots, IsBookedSlot)
    ensures r.data.blockedSlots == Seqs.CountIf(d.slots, IsBlockedSlot)
    ensures r.data.sentEmails == Seqs.CountIf(d.emailLogs, IsSentLog)
    ensures r.data.failedEmails == Seqs.CountIf(d.emailLogs, IsFailedLog)
    ensures r.data.pendingEmails == |AwaitingBookings(d.emailLogs, d.emailLogs)|
    ensures r.data.pendingEmails + r.data.sentEmails + r.data.failedEmails <= |d.emailLogs|
    ensures forall id :: id in AwaitingBookings(d.emailLogs, d.emailLogs) <==>
              exists l :: l in d.emailLogs && l.bookingId == id && l.status == Pending && !HasSentLog(d.emailLogs, id, l.kind)
  {
    Seqs.CountIfPartition(d.bookings, IsConfirmed, IsCancelled, IsCompleted);
    Seqs.CountIfPartition(d.slots, IsFreeSlot, IsBookedSlot, IsBlockedSlot);
    Seqs.CountIfPartition(d.emailLogs, IsPendingLog, IsSentLog, IsFailedLog);
    AwaitingBookingsBound(d.emailLogs, d.emailLogs);
    SpOk(MsgStatsComputed, AdminStats(
      |d.bookings|,
      Seqs.CountIf(d.bookings, IsConfirmed),
      Seqs.CountIf(d.bookings, IsCancelled),
      Seqs.CountIf(d.bookings, IsCompleted),
      |d.advisors|,
      Seqs.CountIf(d.slots, IsFreeSlot),
      Seqs.CountIf(d.slots, IsBookedSlot),
      Seqs.CountIf(d.slots, IsBlockedSlot),
      |AwaitingBookings(d.emailLogs, d.emailLogs)|,
      Seqs.CountIf(d.emailLogs, IsSentLog),
      Seqs.CountIf(d.emailLogs, IsFailedLog)))
  }

  // -------------------------------------------------------------- email logs

  /** One row of sp_get_email_logs (email_logs ⋈ bookings ⋈ time_slots ⋈ advisors). */
  datatype LogView = LogView(id: int, bookingId: int, kind: EmailType, status: EmailStatus, attempts: int,
                             sentAt: Option<int>, errorMessage: Option<string>, createdAt: int,
                             clientName: string, clientEmail: string, advisorName: string)

  /** ORDER BY created_at DESC, as an ascending order on the negated time. */
  function NewestFirst(v: LogView): int { -v.createdAt }

  /** The joins of one log row; None when its booking, the booking's slot or its advisor is missing. */
  function LogViewOf(d: Db, l: EmailLog): (r: Option<LogView>)
    ensures r.Some? ==> r.value.id == l.id && r.value.kind == l.kind && r.value.status == l.status
    ensures r.Some? <==> && FindBooking(d.bookings, l.bookingId).Some?
                         && FindSlot(d.slots, FindBooking(d.bookings, l.bookingId).value.slotId).Some?
                         && FindAdvisor(d.advisors, FindBooking(d.bookings, l.bookingId).value.advisorId).Some?
  {
    match FindBooking(d.bookings, l.bookingId)
    case None => None
    case Some(b) =>
      match (FindSlot(d.slots, b.slotId), FindAdvisor(d.advisors, b.advisorId))
      case (Some(_), Some(a)) =>
        Some(LogView(l.id, l.bookingId, l.kind, l.status, l.attempts, l.sentAt, l.errorMessage, l.createdAt,
                     b.clientName, b.clientEmail, a.name))
      case _ => None
  }

  function JoinLogs(d: Db, ls: seq<EmailLog>): (r: seq<LogView>)
    ensures |r| <= |ls|
    ensures forall v :: v in r <==> exists i :: 0 <= i < |ls| && LogViewOf(d, ls[i]) == Some(v)
  {
    if ls == [] then []
    else
      var rest := JoinLogs(d, ls[1..]);
      assert forall i :: 0 < i < |ls| ==> ls[i] == ls[1..][i - 1];
      match LogViewOf(d, ls[0])
      case Some(v) => [v] + rest
      case None => rest
  }

  /** Under the foreign keys, every log row survives the joins. */
  lemma {:induction false} JoinKeepsEveryLog(d: Db, ls: seq<EmailLog>)
    requires LogsHaveBookings(d.emailLogs, d.bookings) && BookingsHaveSlots(d.bookings, d.slots, d.advisors)
    requires forall i :: 0 <= i < |ls| ==> ls[i] in d.emailLogs
    ensures |JoinLogs(d, ls)| == |ls|
  {
    if ls != [] {
      var b := FindBooking(d.bookings, ls[0].bookingId).value;
      assert FindSlot(d.slots, b.slotId).Some?;
      JoinKeepsEveryLog(d, ls[1..]);
    }
  }

  /** The WHERE clause of sp_get_email_logs; an absent filter accepts every row. */
  predicate LogFilter(l: EmailLog, kind: Option<string>, status: Option<string>) {
    && (kind.None? || EmailTypeName(l.kind) == kind.value)
    && (status.None? || EmailStatusName(l.status) == status.value)
  }

  /**
   * sp_get_email_logs as written: the filtered, joined rows, newest first.  Its
   * `LIMIT 100` applies to the single row the aggregate produces, so the list
   * itself is not cut.
   */
  function GetEmailLogs(d: Db, kind: Option<string>, status: Option<string>): (r: SpReply<seq<LogView>>)
    ensures r.SpOk? && r.message == MsgLogsListed
    ensures Seqs.SortedBy(r.data, NewestFirst)
    ensures forall v :: v in r.data <==>
              exists i :: 0 <= i < |d.emailLogs| && LogFilter(d.emailLogs[i], kind, status)
                          && LogViewOf(d, d.emailLogs[i]) == Some(v)
    ensures multiset(r.data) == multiset(JoinLogs(d, LogsMatching(d, kind, status)))
  {
    var rows := JoinLogs(d, LogsMatching(d, kind, status));
    var sorted := Seqs.SortBy(rows, NewestFirst);
    ListedLogs(d, LogsMatching(d, kind, status), rows, sorted, l => LogFilter(l, kind, status));
    SpOk(MsgLogsListed, sorted)
  }

  /** What a filtered, joined and sorted log listing holds. */
  lemma ListedLogs(d: Db, filtered: seq<EmailLog>, rows: seq<LogView>, sorted: seq<LogView>, p: EmailLog -> bool)
    requires forall l :: l in filtered <==> l in d.emailLogs && p(l)
    requires rows == JoinLogs(d, filtered) && multiset(sorted) == multiset(rows)
    ensures forall v :: v in sorted <==>
              exists i :: 0 <= i < |d.emailLogs| && p(d.emailLogs[i]) && LogViewOf(d, d.emailLogs[i]) == Some(v)
  {
    forall v ensures v in sorted <==>
                     exists i :: 0 <= i < |d.emailLogs| && p(d.emailLogs[i]) && LogViewOf(d, d.emailLogs[i]) == Some(v) {
      assert v in sorted <==> v in multiset(sorted);
      assert v in rows <==> v in multiset(rows);
      if v in rows {
        JoinedLogListed(d, filtered, p, v);
      }
      if exists i :: 0 <= i < |d.emailLogs| && p(d.emailLogs[i]) && LogViewOf(d, d.emailLogs[i]) == Some(v) {
        ListedLogJoined(d, filtered, p, v);
      }
    }
  }

  /** A joined row comes from a log row the filter keeps. */
  lemma JoinedLogListed(d: Db, filtered: seq<EmailLog>, p: EmailLog -> bool, v: LogView)
    requires forall l :: l in filtered <==> l in d.emailLogs && p(l)
    requires v in JoinLogs(d, filtered)
    ensures exists i :: 0 <= i < |d.emailLogs| && p(d.emailLogs[i]) && LogViewOf(d, d.emailLogs[i]) == Some(v)
  {
    var j :| 0 <= j < |filtered| && LogViewOf(d, filtered[j]) == Some(v);
    assert filtered[j] in d.emailLogs;
    var i :| 0 <= i < |d.emailLogs| && d.emailLogs[i] == filtered[j];
    assert p(d.emailLogs[i]) && LogViewOf(d, d.emailLogs[i]) == Some(v);
  }

  /** A log row the filter keeps, whose join succeeds, is in the join. */
  lemma ListedLogJoined(d: Db, filtered: seq<EmailLog>, p: EmailLog -> bool, v: LogView)
    requires forall l :: l in filtered <==> l in d.emailLogs && p(l)
    requires exists i :: 0 <= i < |d.emailLogs| && p(d.emailLogs[i]) && LogViewOf(d, d.emailLogs[i]) == Some(v)
    ensures v in JoinLogs(d, filtered)
  {
    var i :| 0 <= i < |d.emailLogs| && p(d.emailLogs[i]) && LogViewOf(d, d.emailLogs[i]) == Some(v);
    assert d.emailLogs[i] in filtered;
    var j :| 0 <= j < |filtered| && filtered[j] == d.emailLogs[i];
  }

  /** The log rows that pass the filters, in table order. */
  function LogsMatching(d: Db, kind: Option<string>, status: Option<string>): (r: seq<EmailLog>)
    ensures forall l :: multiset(r)[l] == if LogFilter(l, kind, status) then multiset(d.emailLogs)[l] else 0
    ensures forall l :: l in r <==> l in d.emailLogs && LogFilter(l, kind, status)
  {
    Seqs.Filter(d.emailLogs, l => LogFilter(l, kind, status))
  }

  /** With no filter and more than 100 log rows, the list has more than 100 entries. */
  lemma EmailLogsLimitIgnored(d: Db)
    requires Invariant(d) && |d.emailLogs| > 100
    ensures |GetEmailLogs(d, None, None).data| > 100
  {
    UnfilteredLogsListed(d);
  }

  /** Without filters, sp_get_email_logs lists every log row. */
  lemma UnfilteredLogsListed(d: Db)
    requires LogsHaveBookings(d.emailLogs, d.bookings) && BookingsHaveSlots(d.bookings, d.slots, d.advisors)
    ensures |GetEmailLogs(d, None, None).data| == |d.emailLogs|
  {
    var all := LogsMatching(d, None, None);
    assert multiset(all) == multiset(d.emailLogs);
    assert |all| == |multiset(all)|;
    forall i | 0 <= i < |all| ensures all[i] in d.emailLogs {
      assert all[i] in all;
    }
    JoinKeepsEveryLog(d, all);
    var r := GetEmailLogs(d, None, None).data;
    assert |r| == |multiset(r)|;
  }

  /** The evidently intended sp_get_email_logs: the 100 newest matching rows. */
  const EmailLogLimit := 100

  function GetEmailLogsCapped(d: Db, kind: Option<string>, status: Option<string>): (r: SpReply<seq<LogView>>)
    ensures r.SpOk? && r.message == MsgLogsListed
    ensures |r.data| <= EmailLogLimit && |r.data| <= |GetEmailLogs(d, kind, status).data|
    ensures r.data == GetEmailLogs(d, kind, status).data[..|r.data|]
    ensures |r.data| == EmailLogLimit || r.data == GetEmailLogs(d, kind, status).data
  {
    var all := GetEmailLogs(d, kind, status).data;
    if |all| <= EmailLogLimit then SpOk(MsgLogsListed, all)
    else SpOk(MsgLogsListed, all[..EmailLogLimit])
  }
}
