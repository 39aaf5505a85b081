/**
 * Helpers of the web client: the "HH:MM" time codec used by the booking
 * form, the court availability badge and first-letter capitalisation.
 */
module WebUtils {
  import opened Wrappers
  import opened Text

  /**
   * JavaScript's `Number(field)` on the strings this model covers: the empty
   * string reads as 0, a string of decimal digits reads as its value, and
   * anything else is NaN (None).
   */
  function NumberOf(field: string): (r: Option<nat>)
    ensures r.Some? <==> AllDigits(field)
    ensures r.Some? ==> r.value == DigitsValue(field)
  {
    if AllDigits(field) then Some(DigitsValue(field)) else None
  }

  /**
   * `timeToMinutes`: split at ':' and read the first two fields as hours and
   * minutes. A missing minutes field, or a field that is not a number, makes
   * the result NaN (None); fields after the second are ignored.
   */
  function TimeToMinutes(timeString: string): (r: Option<int>)
    ensures var parts := Split(timeString, ':');
      r.Some? <==> |parts| >= 2 && AllDigits(parts[0]) && AllDigits(parts[1])
  {
    MinutesOfFields(Split(timeString, ':'))
  }

  /** `hours * 60 + minutes` on the first two fields read as numbers; NaN (None) if either is missing or not a number. */
  function MinutesOfFields(parts: seq<string>): (r: Option<int>)
    ensures r.Some? <==> |parts| >= 2 && AllDigits(parts[0]) && AllDigits(parts[1])
    ensures r.Some? ==> r.value == DigitsValue(parts[0]) * 60 + DigitsValue(parts[1])
  {
    if |parts| < 2 then None
    else
      var hours, minutes := NumberOf(parts[0]), NumberOf(parts[1]);
      if hours.Some? && minutes.Some? then Some(hours.value * 60 + minutes.value) else None
  }

  /** JavaScript's `%` on integers: the remainder takes the sign of the dividend. */
  function TruncatedRemainder(a: int, b: int): (r: int)
    requires b > 0
    ensures -b < r < b && (a >= 0 ==> r >= 0) && (a < 0 ==> r <= 0)
    ensures (a - r) % b == 0
  {
    RemainderIsMultipleAway(a, b);
    if a >= 0 then a % b else -((-a) % b)
  }

  /** Taking away either remainder leaves a multiple of `b`. */
  lemma RemainderIsMultipleAway(a: int, b: int)
    requires b > 0
    ensures (a - a % b) % b == 0
    ensures (a - -((-a) % b)) % b == 0
  {
    assert a - a % b == (a / b) * b;
    MultipleHasNoRemainder(a / b, b);
    assert a - -((-a) % b) == (-((-a) / b)) * b;
    MultipleHasNoRemainder(-((-a) / b), b);
  }

  /** A multiple of `b` leaves no remainder. */
  lemma MultipleHasNoRemainder(q: int, b: int)
    requires b > 0
    ensures (q * b) % b == 0
  {
    var d, m := (q * b) / b, (q * b) % b;
    assert q * b == b * d + m;
    assert b * (q - d) == m;
    ProductBelowDivisor(q - d, b);
  }

  /** The only multiple of `b` in [0, b) is 0. */
  lemma ProductBelowDivisor(k: int, b: int)
    requires b > 0 && 0 <= b * k < b
    ensures k == 0
  {
  }

  /**
   * `minutesToTime`: hours are `Math.floor(m / 60)` and minutes `m % 60`
   * (JavaScript's sign-of-dividend remainder), each rendered in decimal,
   * padded on the left with '0' to two characters, and joined by ':'.
   */
  function MinutesToTime(m: int): string {
    var hours := m / 60;  // Dafny's division by a positive divisor rounds down, as Math.floor does
    var mins := TruncatedRemainder(m, 60);
    PadStart(IntToString(hours), 2, '0') + ":" + PadStart(IntToString(mins), 2, '0')
  }

  /** The padded rendering of a natural number is a digit string worth the number. */
  lemma PaddedValue(v: nat)
    ensures AllDigits(PadStart(IntToString(v), 2, '0'))
    ensures DigitsValue(PadStart(IntToString(v), 2, '0')) == v
  {
    var s := NatToString(v);
    NatToStringValue(v);
    if |s| < 2 {
      LeadingZerosValue(2 - |s|, s);
    }
  }

  /** For a natural m, `minutesToTime` gives hours m div 60 and minutes m mod 60, each at least two digits. */
  lemma MinutesToTimeShape(m: nat)
    ensures var t := MinutesToTime(m);
      exists h: string, mm: string ::
        t == h + ":" + mm && 2 <= |h| && |mm| == 2 && AllDigits(h) && AllDigits(mm)
        && DigitsValue(h) == m / 60 && DigitsValue(mm) == m % 60
  {
    var h := PadStart(IntToString(m / 60), 2, '0');
    var mm := PadStart(IntToString(m % 60), 2, '0');
    PaddedValue(m / 60);
    PaddedValue(m % 60);
    NaturalRendering(m);
  }

  /** For a natural m the remainder is the ordinary one, so the rendering is m div 60 and m mod 60, padded. */
  lemma NaturalRendering(m: nat)
    ensures MinutesToTime(m) == PadStart(IntToString(m / 60), 2, '0') + ":" + PadStart(IntToString(m % 60), 2, '0')
  {
    assert TruncatedRemainder(m, 60) == m % 60;
  }

  /** Round trip: reading back the rendering of a natural number of minutes gives the number. */
  lemma MinutesRoundTrip(m: nat)
    ensures TimeToMinutes(MinutesToTime(m)) == Some(m)
  {
    var h := PadStart(IntToString(m / 60), 2, '0');
    var mm := PadStart(IntToString(m % 60), 2, '0');
    PaddedValue(m / 60);
    PaddedValue(m % 60);
    NaturalRendering(m);
    assert MinutesToTime(m) == h + [':'] + mm;
    SplitAtSeparator(h, ':', mm);
    NonDigitAbsent(h, ':');
    NonDigitAbsent(mm, ':');
    SplitWithoutSeparator(h, ':');
    SplitWithoutSeparator(mm, ':');
  }

  /** A string of the form "HH:MM" with two-digit hours and two-digit minutes below 60. */
  predicate IsClockTime(s: string) {
    |s| == 5 && s[2] == ':' && AllDigits(s[..2]) && AllDigits(s[3..])
    && DigitsValue(s[3..]) < 60
  }

  /** Reverse round trip: rendering the minutes read from "HH:MM" gives the same string back. */
  lemma ClockTimeRoundTrip(s: string)
    requires IsClockTime(s)
    ensures TimeToMinutes(s).Some? && MinutesToTime(TimeToMinutes(s).value) == s
  {
    var h, mm := s[..2], s[3..];
    assert s == h + ":" + mm;
    HoursAndMinutes(h, mm);
    RenderTwoDigitFields(h, mm, TimeToMinutes(s).value);
  }

  /** Two-digit hours and minutes below 60, turned into minutes and rendered, come back as written. */
  lemma RenderTwoDigitFields(h: string, mm: string, m: int)
    requires |h| == 2 && |mm| == 2 && AllDigits(h) && AllDigits(mm) && DigitsValue(mm) < 60
    requires m == DigitsValue(h) * 60 + DigitsValue(mm)
    ensures MinutesToTime(m) == h + ":" + mm
  {
    assert PadStart(IntToString(DigitsValue(h)), 2, '0') == h by { PaddedTwoDigits(h); }
    assert PadStart(IntToString(DigitsValue(mm)), 2, '0') == mm by { PaddedTwoDigits(mm); }
    RenderHoursAndMinutes(m, DigitsValue(h), DigitsValue(mm));
  }

  /** A two-digit field is its own padded rendering. */
  lemma PaddedTwoDigits(s: string)
    requires |s| == 2 && AllDigits(s)
    ensures PadStart(IntToString(DigitsValue(s)), 2, '0') == s
  {
    assert IntToString(DigitsValue(s)) == NatToString(DigitsValue(s));
    TwoDigitsValue(s);
    TwoDigitPadding(DigitsValue(s));
    FixedWidthOfDigits(s);
  }

  /** Hours and minutes below 60, turned into minutes, render as the padded hours and the padded minutes. */
  lemma RenderHoursAndMinutes(m: int, hv: nat, mv: nat)
    requires mv < 60 && m == hv * 60 + mv
    ensures MinutesToTime(m) == PadStart(IntToString(hv), 2, '0') + ":" + PadStart(IntToString(mv), 2, '0')
  {
    assert m / 60 == hv && TruncatedRemainder(m, 60) == mv;
  }

  /** "H:M" with decimal hours H and minutes M reads as H * 60 + M. */
  lemma HoursAndMinutes(h: string, m: string)
    requires AllDigits(h) && AllDigits(m)
    ensures TimeToMinutes(h + ":" + m) == Some(DigitsValue(h) * 60 + DigitsValue(m))
  {
    var s := h + ":" + m;
    assert s == h + [':'] + m;
    SplitAtSeparator(h, ':', m);
    NonDigitAbsent(h, ':');
    NonDigitAbsent(m, ':');
    SplitWithoutSeparator(h, ':');
    SplitWithoutSeparator(m, ':');
    FieldsValue(s, h, m);
  }

  /** The value of a time string whose fields are exactly two digit strings. */
  lemma FieldsValue(s: string, h: string, m: string)
    requires AllDigits(h) && AllDigits(m)
    requires Split(s, ':') == [h] + [m]
    ensures TimeToMinutes(s) == Some(DigitsValue(h) * 60 + DigitsValue(m))
  {
    var parts := [h] + [m];
    assert parts[0] == h && parts[1] == m;
    assert MinutesOfFields(parts).Some?;
  }

  /** A seconds field, or anything else after the minutes, does not change the result. */
  lemma TrailingFieldsIgnored(s: string, rest: string)
    requires |Split(s, ':')| >= 2
    ensures TimeToMinutes(s + ":" + rest) == TimeToMinutes(s)
  {
    var p := Split(s, ':');
    assert s + ":" + rest == s + [':'] + rest;
    SplitAtSeparator(s, ':', rest);
    LaterFieldsIgnored(p, Split(rest, ':'));
  }

  /** Only the first two fields count. */
  lemma LaterFieldsIgnored(p: seq<string>, q: seq<string>)
    requires |p| >= 2
    ensures MinutesOfFields(p + q) == MinutesOfFields(p)
  {
    assert (p + q)[0] == p[0] && (p + q)[1] == p[1];
  }

  /** A booking as the court listing carries it, with times in milliseconds. */
  datatype BookingWindow = BookingWindow(startTime: int, endTime: int)

  /** A court as the court listing carries it; `bookings` may be absent. */
  datatype Court = Court(id: int, name: string, location: string, status: string,
                         bookings: Option<seq<BookingWindow>>)

  /** The availability badge of a court. */
  datatype Availability = Maintenance | Occupied | Available {
    function Status(): string {
      match this
      case Maintenance => "maintenance"
      case Occupied => "occupied"
      case Available => "available"
    }

    function Text(): string {
      match this
      case Maintenance => "Not Available (Due to Maintenance)"
      case Occupied => "Currently Occupied"
      case Available => "Available Now"
    }
  }

  /** A booking occupies the court at `now` when now lies in its half-open interval [start, end). */
  predicate Occupies(b: BookingWindow, now: int) {
    b.startTime <= now < b.endTime
  }

  /** `bookings.some(...)`: some booking occupies the court at `now`. */
  function AnyOccupies(bookings: seq<BookingWindow>, now: int): (r: bool)
    ensures r <==> exists i :: 0 <= i < |bookings| && Occupies(bookings[i], now)
  {
    if bookings == [] then false
    else Occupies(bookings[0], now) || AnyOccupies(bookings[1..], now)
  }

  /**
   * `getCourtAvailabilityStatus` at time `now`: maintenance when the court's
   * status lower-cases to "maintenance", whatever its bookings; otherwise
   * occupied exactly when a booking's half-open interval contains now;
   * otherwise available, also when the bookings are absent or empty.
   */
  function CourtAvailabilityStatus(court: Court, now: int): (r: Availability)
    ensures ToLower(court.status) == "maintenance" ==> r == Maintenance
    ensures r == Occupied <==>
              ToLower(court.status) != "maintenance" && court.bookings.Some?
              && exists i :: 0 <= i < |court.bookings.value| && Occupies(court.bookings.value[i], now)
    ensures r == Available <==>
              ToLower(court.status) != "maintenance"
              && (court.bookings.None?
                  || forall i :: 0 <= i < |court.bookings.value| ==> !Occupies(court.bookings.value[i], now))
  {
    if ToLower(court.status) == "maintenance" then Maintenance
    else if court.bookings.Some? && AnyOccupies(court.bookings.value, now) then Occupied
    else Available
  }

  /** A booking that ends exactly at now does not occupy the court; one that starts exactly at now does. */
  lemma HalfOpenBoundaries(court: Court, start: int, end: int)
    requires ToLower(court.status) != "maintenance" && start < end
    ensures CourtAvailabilityStatus(court.(bookings := Some([BookingWindow(start, end)])), end) == Available
    ensures CourtAvailabilityStatus(court.(bookings := Some([BookingWindow(start, end)])), start) == Occupied
  {
    var c := court.(bookings := Some([BookingWindow(start, end)]));
    assert Occupies(c.bookings.value[0], start);
  }

  /** `capitalizeFirstLetter`: the first character upper-cased, the rest lower-cased. */
  function CapitalizeFirstLetter(s: string): (r: string)
    ensures |r| == |s|
    ensures |s| > 0 ==> r[0] == UpperChar(s[0])
    ensures forall i :: 1 <= i < |s| ==> r[i] == LowerChar(s[i])
  {
    if s == [] then "" else [UpperChar(s[0])] + ToLower(s[1..])
  }

  /** Capitalising an already capitalised string changes nothing. */
  lemma CapitalizeIdempotent(s: string)
    ensures CapitalizeFirstLetter(CapitalizeFirstLetter(s)) == CapitalizeFirstLetter(s)
  {
    var once := CapitalizeFirstLetter(s);
    var twice := CapitalizeFirstLetter(once);
    forall i | 0 <= i < |s|
      ensures twice[i] == once[i]
    {
      if i == 0 {
        assert UpperChar(UpperChar(s[0])) == UpperChar(s[0]);
      } else {
        assert LowerChar(LowerChar(s[i])) == LowerChar(s[i]);
      }
    }
  }
}
