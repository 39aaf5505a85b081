/**
 * The display rules of the web client's "My Bookings" page: the badge for
 * each status, the duration label, the rule that only pending bookings offer
 * a Cancel action, and the message shown when there are no bookings.
 * Times are integer milliseconds.
 */
module BookingsPage {
  import opened Wrappers
  import opened Text
  import StatusJob

  /** The badge variants of the UI kit that the page uses. */
  datatype BadgeVariant = Default | Secondary | Destructive | Outline

  /** `getStatusBadgeVariant`. */
  function StatusBadgeVariant(status: string): BadgeVariant {
    if status == "CONFIRMED" then Default
    else if status == "PENDING" then Secondary
    else if status == "CANCELLED" then Destructive
    else Outline
  }

  /**
   * The badge of every status the server can send: confirmed, pending and
   * cancelled have their own variants, and COMPLETED, which the sweep writes,
   * falls to the default branch; so the four statuses get four distinct badges.
   */
  lemma BadgeOfEachStatus(st: StatusJob.BookingStatus)
    ensures StatusBadgeVariant(st.Name()) == (match st
      case CONFIRMED => Default
      case PENDING => Secondary
      case CANCELLED => Destructive
      case COMPLETED => Outline)
    ensures forall other: StatusJob.BookingStatus ::
      StatusBadgeVariant(other.Name()) == StatusBadgeVariant(st.Name()) ==> other == st
  {
  }

  /** A status string other than the three named ones gets the outline badge. */
  lemma UnknownStatusIsOutline(status: string)
    requires status != "CONFIRMED" && status != "PENDING" && status != "CANCELLED"
    ensures StatusBadgeVariant(status) == Outline
  {
  }

  /** The Cancel action is shown for a booking exactly when its status is PENDING. */
  predicate ShowsCancel(status: string) {
    status == "PENDING"
  }

  /** The Cancel action appears exactly on the rows with the 'secondary' badge. */
  lemma CancelExactlyOnPendingBadge(status: string)
    ensures ShowsCancel(status) <==> StatusBadgeVariant(status) == Secondary
  {
  }

  /**
   * The duration in whole minutes, `Math.round` of the difference divided by
   * 60000: the nearest whole minute, with an exact half rounded up.
   */
  function DurationInMinutes(startTime: int, endTime: int): (d: int)
    ensures 60000 * d - 30000 <= endTime - startTime < 60000 * d + 30000
  {
    (endTime - startTime + 30000) / 60000
  }

  /**
   * The duration cell: under an hour "<d>min"; otherwise "<hours>h " followed
   * by "<minutes>min" when there are leftover minutes, so that a whole number
   * of hours keeps a trailing space.
   */
  function DurationLabel(d: int): string {
    if d >= 60 then
      NatToString(d / 60) + "h " + (if d % 60 > 0 then NatToString(d % 60) + "min" else "")
    else
      IntToString(d) + "min"
  }

  /** The three shapes of the label. */
  lemma DurationLabelShapes(d: int)
    ensures d < 60 ==> DurationLabel(d) == IntToString(d) + "min"
    ensures d >= 60 && d % 60 > 0 ==> DurationLabel(d) == NatToString(d / 60) + "h " + NatToString(d % 60) + "min"
    ensures d >= 60 && d % 60 == 0 ==> DurationLabel(d) == NatToString(d / 60) + "h "
    ensures d >= 60 && d % 60 == 0 ==> DurationLabel(d)[|DurationLabel(d)| - 1] == ' '
  {
  }

  /** Reads "<n>min" back as n. */
  function ReadMinutes(s: string): Option<nat> {
    if |s| > 3 && s[|s| - 3..] == "min" && AllDigits(s[..|s| - 3]) then Some(DigitsValue(s[..|s| - 3]))
    else None
  }

  /** Reads a duration label back as the number of minutes it shows. */
  function ReadDurationLabel(shown: string): Option<nat> {
    var parts := Split(shown, 'h');
    if |parts| == 1 then ReadMinutes(shown)
    else if |parts| == 2 && |parts[0]| > 0 && AllDigits(parts[0]) && |parts[1]| > 0 && parts[1][0] == ' ' then
      var hours := DigitsValue(parts[0]);
      var rest := parts[1][1..];
      if rest == "" then Some(hours * 60)
      else
        match ReadMinutes(rest)
        case Some(m) => Some(hours * 60 + m)
        case None => None
    else None
  }

  lemma ReadMinutesOf(n: nat)
    ensures 'h' !in NatToString(n) + "min"
    ensures ReadMinutes(NatToString(n) + "min") == Some(n)
  {
    var s := NatToString(n) + "min";
    NonDigitAbsent(NatToString(n), 'h');
    assert s[..|s| - 3] == NatToString(n);
    assert s[|s| - 3..] == "min";
    NatToStringValue(n);
  }

  /** The label of a non-negative duration is unambiguous: reading it back gives the duration. */
  lemma DurationLabelRoundTrip(d: nat)
    ensures ReadDurationLabel(DurationLabel(d)) == Some(d)
  {
    if d < 60 {
      ReadMinutesOf(d);
      SplitWithoutSeparator(DurationLabel(d), 'h');
    } else {
      HoursLabelRoundTrip(d);
    }
  }

  /** The "<h>h <rest>" shape read back: the hours field, then the minutes after the space. */
  lemma HoursLabelRoundTrip(d: nat)
    requires d >= 60
    ensures ReadDurationLabel(DurationLabel(d)) == Some(d)
  {
    var a, tail := NatToString(d / 60), MinutesTail(d % 60);
    HoursLabelFields(d);
    HoursFields(a, tail);
    NatToStringValue(d / 60);
    ReadHoursShape(DurationLabel(d), a, tail, d);
  }

  /** The label of a duration of an hour or more is the hours, 'h', a space and the minutes part. */
  lemma HoursLabelFields(d: nat)
    requires d >= 60
    ensures DurationLabel(d) == NatToString(d / 60) + ['h'] + (" " + MinutesTail(d % 60))
  {
  }

  /** The part of the label after "<h>h ". */
  function MinutesTail(mins: nat): (tail: string)
    ensures tail == "" || ReadMinutes(tail) == Some(mins)
    ensures tail == "" <==> mins == 0
    ensures 'h' !in tail
  {
    if mins > 0 then ReadMinutesOf(mins); NatToString(mins) + "min" else ""
  }

  /** Splitting "<digits>h <tail>" at 'h' gives the digits and the rest. */
  lemma HoursFields(a: string, tail: string)
    requires AllDigits(a) && 'h' !in tail
    ensures Split(a + ['h'] + (" " + tail), 'h') == [a] + [" " + tail]
  {
    var b := " " + tail;
    NonDigitAbsent(a, 'h');
    assert 'h' !in b;
    SplitAtSeparator(a, 'h', b);
    SplitWithoutSeparator(a, 'h');
    SplitWithoutSeparator(b, 'h');
  }

  /** Reading a label whose 'h'-fields are decimal hours and " " followed by a minutes part or nothing. */
  lemma ReadHoursShape(shown: string, a: string, tail: string, d: nat)
    requires Split(shown, 'h') == [a] + [" " + tail]
    requires |a| > 0 && AllDigits(a)
    requires tail == "" || ReadMinutes(tail).Some?
    requires d == DigitsValue(a) * 60 + (if tail == "" then 0 else ReadMinutes(tail).value)
    ensures ReadDurationLabel(shown) == Some(d)
  {
    var parts := Split(shown, 'h');
    assert parts[1][1..] == tail;
  }

  /** A booking of the signed-in user, with its court, as the page receives it. */
  datatype UserBooking = UserBooking(id: int, startTime: int, endTime: int, status: string,
                                     courtName: string, courtLocation: string)

  /** The cells of one table row that this model covers. */
  datatype RowView = RowView(court: string, location: string, duration: string, status: string,
                             badge: BadgeVariant, showsCancel: bool)

  const NoBookingsMessage := "No bookings found."

  /** What the page shows: the empty-state message, or one row per booking. */
  datatype BookingsView = NoBookings(message: string) | BookingsTable(rows: seq<RowView>)

  function BookingRow(b: UserBooking): RowView {
    RowView(b.courtName, b.courtLocation, DurationLabel(DurationInMinutes(b.startTime, b.endTime)),
            b.status, StatusBadgeVariant(b.status), ShowsCancel(b.status))
  }

  /**
   * The page body: the empty-state message exactly when there are no bookings;
   * otherwise one row per booking, in order, showing that booking's court,
   * location, duration, status and badge, whose Cancel action is present
   * exactly when that booking is pending.
   */
  function RenderBookings(bookings: seq<UserBooking>): (v: BookingsView)
    ensures v.NoBookings? <==> bookings == []
    ensures v.NoBookings? ==> v.message == NoBookingsMessage
    ensures v.BookingsTable? ==>
              && |v.rows| == |bookings|
              && (forall i :: 0 <= i < |bookings| ==> (v.rows[i].showsCancel <==> bookings[i].status == "PENDING"))
              && (forall i :: 0 <= i < |bookings| ==> v.rows[i].status == bookings[i].status)
              && (forall i :: 0 <= i < |bookings| ==>
                    v.rows[i].badge == StatusBadgeVariant(bookings[i].status)
                    && v.rows[i].court == bookings[i].courtName && v.rows[i].location == bookings[i].courtLocation)
              && (forall i :: 0 <= i < |bookings| ==>
                    v.rows[i].duration == DurationLabel(DurationInMinutes(bookings[i].startTime, bookings[i].endTime)))
  {
    if bookings == [] then NoBookings(NoBookingsMessage)
    else BookingsTable(seq(|bookings|, i requires 0 <= i < |bookings| => BookingRow(bookings[i])))
  }
}
