/**
 * The desktop client's model objects: users, courts and bookings as the
 * admin panel holds them, with their setters, the status and role tests,
 * and the display form of a booking's timestamps.
 */
module DesktopModels {
  import opened Wrappers
  import opened Text
  import StatusJob

  /** Java's `int`. */
  newtype int32 = x: int | -0x8000_0000 <= x < 0x8000_0000

  /** The date and time fields of a parsed ISO local date-time that the display keeps. */
  datatype LocalDateTime = LocalDateTime(year: int, month: int, day: int, hour: int, minute: int)

  predicate IsLeapYear(y: int) {
    y % 4 == 0 && (y % 100 != 0 || y % 400 == 0)
  }

  function DaysInMonth(y: int, m: int): int
    requires 1 <= m <= 12
  {
    if m == 2 then (if IsLeapYear(y) then 29 else 28)
    else if m == 4 || m == 6 || m == 9 || m == 11 then 30
    else 31
  }

  /**
   * What may follow "HH:mm": nothing, ":ss", or ":ss." and zero to nine
   * fraction digits (the fraction field has minimum width 0, so a bare
   * decimal point parses).
   */
  predicate IsSecondsPart(rest: string) {
    rest == []
    || (|rest| >= 3 && rest[0] == ':' && AllDigits(rest[1..3]) && DigitsValue(rest[1..3]) < 60
        && (|rest| == 3 || (rest[3] == '.' && |rest| <= 13 && AllDigits(rest[4..]))))
  }

  /**
   * The fixed positions of "uuuu-MM-ddTHH:mm": four-digit year, then two-digit
   * fields. The ISO formatter parses case-insensitively, so the date-time
   * separator may also be a lower-case 't'.
   */
  predicate HasDateTimeLayout(t: string) {
    |t| >= 16 && t[4] == '-' && t[7] == '-' && (t[10] == 'T' || t[10] == 't') && t[13] == ':'
    && AllDigits(t[..4]) && AllDigits(t[5..7]) && AllDigits(t[8..10])
    && AllDigits(t[11..13]) && AllDigits(t[14..16])
  }

  /**
   * `LocalDateTime.parse` on the ISO local date-time forms this model covers:
   * a four-digit year, a month 01-12, a day that exists in that month (the
   * strict resolver), an hour 00-23 and a minute 00-59, then optional seconds
   * and fraction. Anything else fails (None).
   */
  function ParseLocalDateTime(t: string): Option<LocalDateTime> {
    if !HasDateTimeLayout(t) then None
    else
      var year, month, day := DigitsValue(t[..4]), DigitsValue(t[5..7]), DigitsValue(t[8..10]);
      var hour, minute := DigitsValue(t[11..13]), DigitsValue(t[14..16]);
      if 1 <= month <= 12 && 1 <= day <= DaysInMonth(year, month) && hour < 24 && minute < 60
         && IsSecondsPart(t[16..])
      then Some(LocalDateTime(year, month, day, hour, minute))
      else None
  }

  /** The year as the pattern letter 'y' prints it: year-of-era, so year 0 is 1 (before the era). */
  function YearOfEra(year: int): nat {
    if year >= 1 then year else 1 - year
  }

  /** The pattern "yyyy-MM-dd HH:mm". */
  function FormatMinutes(dt: LocalDateTime): string
    requires dt.month >= 0 && dt.day >= 0 && dt.hour >= 0 && dt.minute >= 0
  {
    FixedWidth(YearOfEra(dt.year), 4) + "-" + FixedWidth(dt.month, 2) + "-" + FixedWidth(dt.day, 2)
    + " " + FixedWidth(dt.hour, 2) + ":" + FixedWidth(dt.minute, 2)
  }

  /**
   * `getFormattedStartTime` / `getFormattedEndTime` on one timestamp: drop
   * every 'Z', parse, and print as "yyyy-MM-dd HH:mm"; when that fails,
   * including on a null timestamp, the timestamp itself.
   */
  function FormatTimestamp(timestamp: Option<string>): Option<string> {
    match timestamp
    case None => None
    case Some(s) =>
      match ParseLocalDateTime(RemoveAll(s, 'Z'))
      case Some(dt) => Some(FormatMinutes(dt))
      case None => Some(s)
  }

  /** A timestamp that does not parse, or is null, is shown as it is. */
  lemma UnparsableShownAsIs(timestamp: Option<string>)
    requires timestamp.Some? ==> ParseLocalDateTime(RemoveAll(timestamp.value, 'Z')).None?
    ensures FormatTimestamp(timestamp) == timestamp
  {
  }

  /** Every character of a layout-conforming date-time is a digit or one of '-', 'T', 't', ':', '.'. */
  lemma NoZoneLetter(t: string)
    requires ParseLocalDateTime(t).Some?
    ensures 'Z' !in t
  {
    forall i | 0 <= i < |t|
      ensures t[i] != 'Z'
    {
      if i < 4 {
        assert t[..4][i] == t[i];
      } else if 5 <= i < 7 {
        assert t[5..7][i - 5] == t[i];
      } else if 8 <= i < 10 {
        assert t[8..10][i - 8] == t[i];
      } else if 11 <= i < 13 {
        assert t[11..13][i - 11] == t[i];
      } else if 14 <= i < 16 {
        assert t[14..16][i - 14] == t[i];
      } else if 16 <= i {
        var rest := t[16..];
        assert rest[i - 16] == t[i];
        if i - 16 == 1 || i - 16 == 2 {
          assert rest[1..3][i - 17] == t[i];
        } else if i - 16 >= 4 {
          assert rest[4..][i - 20] == t[i];
        }
      }
    }
  }

  /** The display of a parsable timestamp: its year as year-of-era, its date's other fields and its hours and minutes as written. */
  lemma ShownFields(t: string)
    requires ParseLocalDateTime(t).Some?
    ensures FormatTimestamp(Some(t))
            == Some(FixedWidth(YearOfEra(DigitsValue(t[..4])), 4) + t[4..10] + " " + t[11..16])
  {
    NoZoneLetter(t);
    var dt := ParseLocalDateTime(t).value;
    assert FormatTimestamp(Some(t)) == Some(FormatMinutes(dt));
    FormattedAsWritten(t, dt);
  }

  /** "yyyy-MM-dd HH:mm" of the fields read from `t` repeats `t`'s own month, day, hour and minute characters. */
  lemma FormattedAsWritten(t: string, dt: LocalDateTime)
    requires HasDateTimeLayout(t)
    requires dt == LocalDateTime(DigitsValue(t[..4]), DigitsValue(t[5..7]), DigitsValue(t[8..10]),
                                 DigitsValue(t[11..13]), DigitsValue(t[14..16]))
    ensures FormatMinutes(dt) == FixedWidth(YearOfEra(dt.year), 4) + t[4..10] + " " + t[11..16]
  {
    FixedWidthOfDigits(t[5..7]);
    FixedWidthOfDigits(t[8..10]);
    FixedWidthOfDigits(t[11..13]);
    FixedWidthOfDigits(t[14..16]);
    var year := FixedWidth(YearOfEra(dt.year), 4);
    assert t[4..10] == "-" + t[5..7] + "-" + t[8..10];
    assert t[11..16] == t[11..13] + ":" + t[14..16];
    assert year + t[4..10] + " " + t[11..16]
        == year + "-" + t[5..7] + "-" + t[8..10] + " " + t[11..13] + ":" + t[14..16];
  }

  /**
   * A well-formed ISO local date-time in the common era, with or without a
   * trailing 'Z', is shown as its date, a space, and its hours and minutes.
   */
  lemma WellFormedShownToTheMinute(t: string)
    requires ParseLocalDateTime(t).Some? && DigitsValue(t[..4]) >= 1
    ensures FormatTimestamp(Some(t)) == Some(t[..10] + " " + t[11..16])
    ensures FormatTimestamp(Some(t + "Z")) == Some(t[..10] + " " + t[11..16])
  {
    ShownFields(t);
    FixedWidthOfDigits(t[..4]);
    assert t[..10] == t[..4] + t[4..10];
    NoZoneLetter(t);
    RemoveAllTrailing(t, 'Z');
    assert t + "Z" == t + ['Z'];
  }

  /**
   * The parser ignores case and takes a fraction of zero digits: a lower-case
   * 't' separator, or a decimal point after the seconds with no digits
   * following it, parses to the same date-time.
   */
  lemma LenientForms(t: string)
    requires ParseLocalDateTime(t).Some?
    ensures ParseLocalDateTime(t[10 := 't']) == ParseLocalDateTime(t)
    ensures |t| == 19 ==> ParseLocalDateTime(t + ".") == ParseLocalDateTime(t)
  {
    var u := t[10 := 't'];
    assert u[..4] == t[..4] && u[5..7] == t[5..7] && u[8..10] == t[8..10];
    assert u[11..13] == t[11..13] && u[14..16] == t[14..16] && u[16..] == t[16..];
    if |t| == 19 {
      var v := t + ".";
      assert v[..4] == t[..4] && v[5..7] == t[5..7] && v[8..10] == t[8..10];
      assert v[11..13] == t[11..13] && v[14..16] == t[14..16];
      assert v[16..] == t[16..] + ".";
      assert (t[16..] + ".")[1..3] == t[16..][1..3];
    }
  }

  /** Year 0 parses (a leap year), and the year-of-era pattern shows it as year 1. */
  lemma YearZeroShownAsYearOne(t: string)
    requires ParseLocalDateTime(t).Some? && t[..4] == "0000"
    ensures FormatTimestamp(Some(t)) == Some("0001" + t[4..10] + " " + t[11..16])
  {
    ShownFields(t);
    ZeroYearDigits();
  }

  /** "0000" is worth 0, and year-of-era 1 prints as "0001". */
  lemma ZeroYearDigits()
    ensures DigitsValue("0000") == 0
    ensures FixedWidth(YearOfEra(0), 4) == "0001"
  {
    LeadingZerosValue(4, []);
    assert Repeat('0', 4) + [] == "0000";
    assert DigitChar(0) == '0' && DigitChar(1) == '1';
    assert FixedWidth(0, 1) == "0";
    assert FixedWidth(0, 2) == "00";
    assert FixedWidth(0, 3) == "000";
    assert FixedWidth(1, 4) == FixedWidth(0, 3) + "1";
  }

  /** A court as the admin panel holds it. */
  class Court {
    var id: int32
    var name: Option<string>
    var location: Option<string>
    var status: Option<string>

    constructor Empty()
      ensures id == 0 && name == None && location == None && status == None
    {
      id, name, location, status := 0, None, None, None;
    }

    constructor (id: int32, name: Option<string>, location: Option<string>, status: Option<string>)
      ensures this.id == id && this.name == name && this.location == location && this.status == status
    {
      this.id, this.name, this.location, this.status := id, name, location, status;
    }
  }

  /** A user as the admin panel holds it; `None` stands for Java's null. */
  class User {
    var id: int32
    var name: Option<string>
    var email: Option<string>
    var role: Option<string>

    constructor Empty()
      ensures id == 0 && name == None && email == None && role == None
    {
      id, name, email, role := 0, None, None, None;
    }

    constructor (id: int32, name: Option<string>, email: Option<string>, role: Option<string>)
      ensures this.id == id && this.name == name && this.email == email && this.role == role
    {
      this.id, this.name, this.email, this.role := id, name, email, role;
    }

    method SetId(id: int32)
      modifies this`id
      ensures this.id == id
    {
      this.id := id;
    }

    method SetName(name: Option<string>)
      modifies this`name
      ensures this.name == name
    {
      this.name := name;
    }

    method SetEmail(email: Option<string>)
      modifies this`email
      ensures this.email == email
    {
      this.email := email;
    }

    method SetRole(role: Option<string>)
      modifies this`role
      ensures this.role == role
    {
      this.role := role;
    }

    /** `isAdmin`: the role is exactly "ADMIN". */
    predicate IsAdmin()
      reads this
    {
      role == Some("ADMIN")
    }
  }

  /** Only the exact, upper-case role "ADMIN" is admin; a null role or "admin" is not. */
  lemma AdminRoleIsExact(u: User)
    ensures u.role == None ==> !u.IsAdmin()
    ensures u.role == Some("admin") ==> !u.IsAdmin()
    ensures u.IsAdmin() <==> u.role == Some("ADMIN")
  {
  }

  /** A booking as the admin panel holds it; `None` and `null` stand for Java's null. */
  class Booking {
    var id: int32
    var userId: int32
    var courtId: int32
    var startTime: Option<string>
    var endTime: Option<string>
    var status: Option<string>
    var user: User?
    var court: Court?

    constructor Empty()
      ensures id == 0 && userId == 0 && courtId == 0
      ensures startTime == None && endTime == None && status == None
      ensures user == null && court == null
    {
      id, userId, courtId := 0, 0, 0;
      startTime, endTime, status := None, None, None;
      user, court := null, null;
    }

    /** The six-field constructor: the scalar fields as given, no user and no court. */
    constructor (id: int32, userId: int32, courtId: int32,
                 startTime: Option<string>, endTime: Option<string>, status: Option<string>)
      ensures this.id == id && this.userId == userId && this.courtId == courtId
      ensures this.startTime == startTime && this.endTime == endTime && this.status == status
      ensures user == null && court == null
    {
      this.id, this.userId, this.courtId := id, userId, courtId;
      this.startTime, this.endTime, this.status := startTime, endTime, status;
      user, court := null, null;
    }

    method SetId(id: int32)
      modifies this`id
      ensures this.id == id
    {
      this.id := id;
    }

    method SetUserId(userId: int32)
      modifies this`userId
      ensures this.userId == userId
    {
      this.userId := userId;
    }

    method SetCourtId(courtId: int32)
      modifies this`courtId
      ensures this.courtId == courtId
    {
      this.courtId := courtId;
    }

    method SetStartTime(startTime: Option<string>)
      modifies this`startTime
      ensures this.startTime == startTime
    {
      this.startTime := startTime;
    }

    method SetEndTime(endTime: Option<string>)
      modifies this`endTime
      ensures this.endTime == endTime
    {
      this.endTime := endTime;
    }

    method SetStatus(status: Option<string>)
      modifies this`status
      ensures this.status == status
    {
      this.status := status;
    }

    method SetUser(user: User?)
      modifies this`user
      ensures this.user == user
    {
      this.user := user;
    }

    method SetCourt(court: Court?)
      modifies this`court
      ensures this.court == court
    {
      this.court := court;
    }

    predicate IsPending()
      reads this
    {
      status == Some("PENDING")
    }

    predicate IsConfirmed()
      reads this
    {
      status == Some("CONFIRMED")
    }

    predicate IsCancelled()
      reads this
    {
      status == Some("CANCELLED")
    }

    function FormattedStartTime(): Option<string>
      reads this
    {
      FormatTimestamp(startTime)
    }

    function FormattedEndTime(): Option<string>
      reads this
    {
      FormatTimestamp(endTime)
    }
  }

  /**
   * At most one of the three status tests holds; for a status the server
   * sends, each test holds exactly for its own status, so COMPLETED satisfies
   * none; a null or differently cased status satisfies none either.
   */
  lemma StatusTests(b: Booking)
    ensures !(b.IsPending() && b.IsConfirmed()) && !(b.IsPending() && b.IsCancelled())
            && !(b.IsConfirmed() && b.IsCancelled())
    ensures forall st: StatusJob.BookingStatus :: b.status == Some(st.Name()) ==>
              (b.IsPending() <==> st == StatusJob.PENDING)
              && (b.IsConfirmed() <==> st == StatusJob.CONFIRMED)
              && (b.IsCancelled() <==> st == StatusJob.CANCELLED)
    ensures b.status == None || b.status == Some("pending") || b.status == Some("confirmed")
            || b.status == Some("cancelled") ==>
              !b.IsPending() && !b.IsConfirmed() && !b.IsCancelled()
  {
  }
}
