/**
 * The periodic booking status sweep of the API server. Against one "now"
 * timestamp it completes confirmed bookings that have ended and cancels
 * pending bookings that have started, each as one bulk update of the
 * booking table, guarded by a flag that skips overlapping runs.
 *
 * Times are integer milliseconds. The booking table is an array of rows
 * the job rewrites in place.
 */
module StatusJob {

  /** The four booking states of the database schema. */
  datatype BookingStatus = PENDING | CONFIRMED | CANCELLED | COMPLETED {
    /** The status as the API sends it to the clients. */
    function Name(): string {
      match this
      case PENDING => "PENDING"
      case CONFIRMED => "CONFIRMED"
      case CANCELLED => "CANCELLED"
      case COMPLETED => "COMPLETED"
    }
  }

  /** One row of the booking table, with the columns the sweep reads or writes. */
  datatype BookingRow = BookingRow(id: int, startTime: int, endTime: int, status: BookingStatus)

  /** The filter of the first bulk update: confirmed, and the end time strictly before now. */
  predicate HasEnded(b: BookingRow, now: int) {
    b.status == CONFIRMED && b.endTime < now
  }

  /** The filter of the second bulk update: pending, and the start time strictly before now. */
  predicate HasLapsed(b: BookingRow, now: int) {
    b.status == PENDING && b.startTime < now
  }

  /** One row as the first bulk update leaves it. */
  function Complete(b: BookingRow, now: int): BookingRow {
    if HasEnded(b, now) then b.(status := COMPLETED) else b
  }

  /** One row as the second bulk update leaves it. */
  function Cancel(b: BookingRow, now: int): BookingRow {
    if HasLapsed(b, now) then b.(status := CANCELLED) else b
  }

  /** One row as a whole sweep leaves it. */
  function SweepRow(b: BookingRow, now: int): BookingRow {
    Cancel(Complete(b, now), now)
  }

  /** The table after the first bulk update. */
  function CompleteAll(s: seq<BookingRow>, now: int): seq<BookingRow> {
    seq(|s|, i requires 0 <= i < |s| => Complete(s[i], now))
  }

  /** The table after the second bulk update. */
  function CancelAll(s: seq<BookingRow>, now: int): seq<BookingRow> {
    seq(|s|, i requires 0 <= i < |s| => Cancel(s[i], now))
  }

  /** The table after a whole sweep: the two bulk updates in order. */
  function Sweep(s: seq<BookingRow>, now: int): seq<BookingRow> {
    CancelAll(CompleteAll(s, now), now)
  }

  /** Number of rows the first bulk update matches. */
  function CountEnded(s: seq<BookingRow>, now: int): nat {
    if s == [] then 0
    else CountEnded(s[..|s| - 1], now) + (if HasEnded(s[|s| - 1], now) then 1 else 0)
  }

  /** Number of rows the second bulk update matches. */
  function CountLapsed(s: seq<BookingRow>, now: int): nat {
    if s == [] then 0
    else CountLapsed(s[..|s| - 1], now) + (if HasLapsed(s[|s| - 1], now) then 1 else 0)
  }

  /** Number of rows that have status `st` in `after` but had another status in `before`. */
  function MovedTo(before: seq<BookingRow>, after: seq<BookingRow>, st: BookingStatus): nat
    requires |before| == |after|
  {
    if before == [] then 0
    else
      var n := |before| - 1;
      MovedTo(before[..n], after[..n], st)
        + (if before[n].status != st && after[n].status == st then 1 else 0)
  }

  /**
   * What a sweep does to one row. A confirmed booking becomes completed exactly
   * when its end time is strictly before now; a pending booking becomes
   * cancelled exactly when its start time is strictly before now; cancelled and
   * completed rows stay as they are; nothing but the status changes, and no row
   * ever becomes pending or confirmed.
   */
  lemma SweepRowEffect(b: BookingRow, now: int)
    ensures SweepRow(b, now).id == b.id
    ensures SweepRow(b, now).startTime == b.startTime
    ensures SweepRow(b, now).endTime == b.endTime
    ensures SweepRow(b, now).status == COMPLETED <==> b.status == COMPLETED || (b.status == CONFIRMED && b.endTime < now)
    ensures SweepRow(b, now).status == CANCELLED <==> b.status == CANCELLED || (b.status == PENDING && b.startTime < now)
    ensures SweepRow(b, now).status == CONFIRMED <==> b.status == CONFIRMED && now <= b.endTime
    ensures SweepRow(b, now).status == PENDING <==> b.status == PENDING && now <= b.startTime
  {
  }

  /** The comparisons are strict: a booking ending, or starting, exactly at now is left alone. */
  lemma SweepBoundaryIsStrict(b: BookingRow)
    ensures b.status == CONFIRMED ==> SweepRow(b, b.endTime) == b
    ensures b.status == PENDING ==> SweepRow(b, b.startTime) == b
  {
  }

  /** A sweep acts on each row on its own and keeps the table's length. */
  lemma SweepPointwise(s: seq<BookingRow>, now: int)
    ensures |Sweep(s, now)| == |s|
    ensures forall i :: 0 <= i < |s| ==> Sweep(s, now)[i] == SweepRow(s[i], now)
  {
  }

  /** A later sweep subsumes an earlier one: sweeping at t1 and then at t2 >= t1 is sweeping at t2. */
  lemma SweepAtLaterTime(s: seq<BookingRow>, t1: int, t2: int)
    requires t1 <= t2
    ensures Sweep(Sweep(s, t1), t2) == Sweep(s, t2)
  {
    var once := Sweep(s, t1);
    forall i | 0 <= i < |s|
      ensures Sweep(once, t2)[i] == Sweep(s, t2)[i]
    {
      assert once[i] == SweepRow(s[i], t1);
    }
  }

  /** Sweeping twice with the same now is sweeping once. */
  lemma SweepIdempotent(s: seq<BookingRow>, now: int)
    ensures Sweep(Sweep(s, now), now) == Sweep(s, now)
  {
    SweepAtLaterTime(s, now, now);
  }

  /** The first bulk update never touches a pending row, so the second one matches the same rows either way. */
  lemma {:induction false} CompletionKeepsLapsedCount(s: seq<BookingRow>, now: int)
    ensures CountLapsed(CompleteAll(s, now), now) == CountLapsed(s, now)
  {
    if s != [] {
      var n := |s| - 1;
      CompletionKeepsLapsedCount(s[..n], now);
      assert CompleteAll(s, now)[..n] == CompleteAll(s[..n], now);
    }
  }

  /** The number of rows the first bulk update matches is the number the sweep moves to COMPLETED. */
  lemma {:induction false} EndedCountIsCompleted(s: seq<BookingRow>, now: int)
    ensures CountEnded(s, now) == MovedTo(s, Sweep(s, now), COMPLETED)
  {
    if s != [] {
      var n := |s| - 1;
      EndedCountIsCompleted(s[..n], now);
      assert Sweep(s, now)[..n] == Sweep(s[..n], now);
    }
  }

  /** The number of rows the second bulk update matches is the number the sweep moves to CANCELLED. */
  lemma {:induction false} LapsedCountIsCancelled(s: seq<BookingRow>, now: int)
    ensures CountLapsed(s, now) == MovedTo(s, Sweep(s, now), CANCELLED)
  {
    if s != [] {
      var n := |s| - 1;
      LapsedCountIsCancelled(s[..n], now);
      assert Sweep(s, now)[..n] == Sweep(s[..n], now);
    }
  }

  /** Which bulk update, if any, fails with a database error during a run. */
  datatype Fault = NoFault | CompletionFails | CancellationFails

  /** What a run reports: skipped, the two update counts, or the error it caught. */
  datatype RunOutcome = Skipped | Updated(completedBookings: nat, cancelledBookings: nat) | Failed

  class BookingStatusJob {
    /** The booking table, shared with the rest of the server. */
    var bookings: array<BookingRow>
    /** Set while a run is in progress. */
    var isRunning: bool

    constructor (table: array<BookingRow>)
      ensures bookings == table && !isRunning
    {
      bookings := table;
      isRunning := false;
    }

    /** The first bulk update: every confirmed row that has ended becomes completed. */
    method CompleteEndedBookings(now: int) returns (count: nat)
      modifies bookings
      ensures bookings[..] == CompleteAll(old(bookings[..]), now)
      ensures count == CountEnded(old(bookings[..]), now)
    {
      ghost var before := bookings[..];
      count := 0;
      var i := 0;
      while i < bookings.Length
        invariant 0 <= i <= bookings.Length
        invariant forall k :: 0 <= k < i ==> bookings[k] == Complete(before[k], now)
        invariant forall k :: i <= k < bookings.Length ==> bookings[k] == before[k]
        invariant count == CountEnded(before[..i], now)
      {
        assert before[..i + 1][..i] == before[..i];
        if HasEnded(bookings[i], now) {
          bookings[i] := bookings[i].(status := COMPLETED);
          count := count + 1;
        }
        i := i + 1;
      }
      assert before[..i] == before;
    }

    /** The second bulk update: every pending row that has started becomes cancelled. */
    method CancelLapsedBookings(now: int) returns (count: nat)
      modifies bookings
      ensures bookings[..] == CancelAll(old(bookings[..]), now)
      ensures count == CountLapsed(old(bookings[..]), now)
    {
      ghost var before := bookings[..];
      count := 0;
      var i := 0;
      while i < bookings.Length
        invariant 0 <= i <= bookings.Length
        invariant forall k :: 0 <= k < i ==> bookings[k] == Cancel(before[k], now)
        invariant forall k :: i <= k < bookings.Length ==> bookings[k] == before[k]
        invariant count == CountLapsed(before[..i], now)
      {
        assert before[..i + 1][..i] == before[..i];
        if HasLapsed(bookings[i], now) {
          bookings[i] := bookings[i].(status := CANCELLED);
          count := count + 1;
        }
        i := i + 1;
      }
      assert before[..i] == before;
    }

    /**
     * One run of the sweep at time `now`. A run that finds the flag set changes
     * nothing. Otherwise the flag is cleared again at the end whatever happens;
     * a failing bulk update changes no row and stops the run.
     */
    method UpdateBookingStatuses(now: int, fault: Fault) returns (outcome: RunOutcome)
      modifies this, bookings
      ensures bookings == old(bookings)
      ensures old(isRunning) ==> outcome == Skipped && isRunning && bookings[..] == old(bookings[..])
      ensures !old(isRunning) ==> !isRunning && outcome != Skipped
      ensures !old(isRunning) && fault == NoFault ==>
                bookings[..] == Sweep(old(bookings[..]), now)
                && outcome == Updated(MovedTo(old(bookings[..]), bookings[..], COMPLETED),
                                      MovedTo(old(bookings[..]), bookings[..], CANCELLED))
      ensures !old(isRunning) && fault == CompletionFails ==>
                bookings[..] == old(bookings[..]) && outcome == Failed
      ensures !old(isRunning) && fault == CancellationFails ==>
                bookings[..] == CompleteAll(old(bookings[..]), now) && outcome == Failed
    {
      if isRunning {
        return Skipped;
      }
      isRunning := true;
      ghost var before := bookings[..];
      if fault == CompletionFails {
        outcome := Failed;
      } else {
        var completed := CompleteEndedBookings(now);
        if fault == CancellationFails {
          outcome := Failed;
        } else {
          var cancelled := CancelLapsedBookings(now);
          CompletionKeepsLapsedCount(before, now);
          EndedCountIsCompleted(before, now);
          LapsedCountIsCancelled(before, now);
          outcome := Updated(completed, cancelled);
        }
      }
      isRunning := false;
    }
  }
}
