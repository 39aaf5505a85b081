# Court booking: a verified model of its core rules

This project models the parts of the court-booking system that have
behaviour worth stating, and proves properties about them in Dafny:

- **Booking status sweep** (`booking_status_job.dfy`, module `StatusJob`). This is the
  API server's periodic job. Against one "now" it completes the confirmed bookings
  that have ended, then cancels the pending bookings that have started. A flag skips
  overlapping runs. The booking table is an array that the two bulk updates rewrite
  in place, one loop per update.
- **Web helpers** (`web_utils.dfy`, module `WebUtils`). These are the "HH:MM" time
  codec, the court availability badge and first-letter capitalisation.
- **Registration schema** (`validation.dfy`, module `Validation`). It bounds the
  lengths of name and password, checks the email format, and reports one issue per
  broken constraint.
- **Web session store** (`user_store.dfy`, module `UserStore`). This is the store
  object, with `setUser`, `clearUser`, the selectors and the loading-flag discipline
  of `loadInitialState`.
- **"My Bookings" page rules** (`bookings_page.dfy`, module `BookingsPage`). These are
  the status badge, the duration label, the Cancel-action rule and the empty-state
  message.
- **Desktop models** (`desktop_models.dfy`, module `DesktopModels`). These are the
  `User`, `Booking` and `Court` classes with their constructors and setters, the
  status and role tests, and the display form of booking timestamps.
- **Desktop API client state** (`api_service.dfy`, module `ApiService`). This is the
  host-keyed cookie jar, the auth-token lifecycle of `login` and `logout`, the
  Authorization-header rule and the query of the "all bookings" request.

Two modules are shared. `wrappers.dfy` holds `Option` and `Result`. `text.dfy` holds
the string primitives that the sources take from their runtimes: decimal rendering
and parsing, `padStart`, `split`, Java's `String.replace` of one character, and
ASCII case mapping.

Times are integer milliseconds throughout. The wall clock, the network and the
database are not consulted. "Now" is a parameter, and every server reply or
database failure is an input to the operation that receives it.

The web type `Booking` lists only PENDING, CONFIRMED and CANCELLED as statuses
(`apps/web/src/types/booking.type.ts:9`). The sweep also writes COMPLETED, so the
model's status type has all four values. `BookingsPage.BadgeOfEachStatus` shows that
COMPLETED falls to the page's default "outline" badge.

The booking-conflict check (overlap, opening hours, bookings in the past) is not
part of this model. It does not exist in the code: the court service is an empty
singleton. Only the status sweep of the booking lifecycle is present.

## Model

| member | source | states |
|---|---|---|
| StatusJob.SweepRowEffect | apps/api/src/jobs/booking-status-job.ts:38-62 | A sweep completes a row exactly when it is CONFIRMED and its end is before now. It cancels a row exactly when it is PENDING and its start is before now. CANCELLED and COMPLETED rows stay as they are. Id and times never change, and no row becomes PENDING or CONFIRMED. |
| StatusJob.SweepBoundaryIsStrict | apps/api/src/jobs/booking-status-job.ts:42-56 | A confirmed booking ending exactly at now, or a pending one starting exactly at now, is left unchanged. |
| StatusJob.SweepPointwise | apps/api/src/jobs/booking-status-job.ts:39-62 | The sweep keeps the table's length and acts on each row independently. |
| StatusJob.SweepAtLaterTime | apps/api/src/jobs/booking-status-job.ts:33-62 | A sweep at t1 followed by one at t2 >= t1 equals a single sweep at t2. |
| StatusJob.SweepIdempotent | apps/api/src/jobs/booking-status-job.ts:33-62 | Two sweeps with the same now equal one sweep. |
| StatusJob.CompletionKeepsLapsedCount | apps/api/src/jobs/booking-status-job.ts:39-62 | The first bulk update does not change which rows the second one matches. |
| StatusJob.EndedCountIsCompleted | apps/api/src/jobs/booking-status-job.ts:39-65 | The first update's count equals the number of rows the sweep moves to COMPLETED. |
| StatusJob.LapsedCountIsCancelled | apps/api/src/jobs/booking-status-job.ts:52-66 | The second update's count equals the number of rows the sweep moves to CANCELLED. |
| StatusJob.BookingStatusJob.constructor | apps/api/src/jobs/booking-status-job.ts:8-12 | A new job holds the table and is not running. |
| StatusJob.BookingStatusJob.CompleteEndedBookings | apps/api/src/jobs/booking-status-job.ts:39-49 | The table becomes the completed form of the old table. The count returned is the number of confirmed rows that had ended. |
| StatusJob.BookingStatusJob.CancelLapsedBookings | apps/api/src/jobs/booking-status-job.ts:52-62 | The table becomes the cancelled form of the old table. The count returned is the number of pending rows that had started. |
| StatusJob.BookingStatusJob.UpdateBookingStatuses | apps/api/src/jobs/booking-status-job.ts:26-74 | A run that finds the flag set skips and changes no row. Otherwise the flag is clear at the end whether or not an update failed. A full run leaves the swept table and reports the counts of rows moved to COMPLETED and to CANCELLED. A failing first update changes nothing. A failing second update leaves only the completions. |
| WebUtils.NumberOf | apps/web/src/lib/utils.ts:18 | A field is a number exactly when it is a decimal digit string, and then its value is the digits' decimal value, so the empty string reads as 0. |
| WebUtils.TimeToMinutes | apps/web/src/lib/utils.ts:17-20 | The result is a number exactly when the first two ':' fields are both numbers. |
| WebUtils.HoursAndMinutes | apps/web/src/lib/utils.ts:17-20 | "H:M" reads as H * 60 + M. |
| WebUtils.TrailingFieldsIgnored | apps/web/src/lib/utils.ts:18 | A third field, such as seconds, does not change the result. |
| WebUtils.TruncatedRemainder | apps/web/src/lib/utils.ts:24 | The remainder takes the sign of the dividend, is smaller than the divisor in magnitude, and differs from the dividend by a multiple of the divisor. Together these fix JavaScript's `%` exactly. |
| WebUtils.MinutesToTime | apps/web/src/lib/utils.ts:22-26 | Hours are the floor of m / 60, minutes are the truncated remainder, and each is padded to two characters and joined by ':'. This is a definition; its shape and round trips are stated by MinutesToTimeShape, MinutesRoundTrip and ClockTimeRoundTrip. |
| WebUtils.PaddedValue | apps/web/src/lib/utils.ts:25 | A natural number padded to two characters is a digit string worth that number. |
| WebUtils.MinutesToTimeShape | apps/web/src/lib/utils.ts:22-26 | For natural m the output is hours (m div 60) and minutes (m mod 60), each of at least two digits, joined by ':'. |
| WebUtils.MinutesRoundTrip | apps/web/src/lib/utils.ts:17-26 | Reading back the rendering of natural m gives m. |
| WebUtils.ClockTimeRoundTrip | apps/web/src/lib/utils.ts:17-26 | Rendering the minutes read from a two-digit "HH:MM" with MM below 60 gives the same string. |
| WebUtils.AnyOccupies | apps/web/src/lib/utils.ts:35-39 | True exactly when some booking's half-open interval contains now. |
| WebUtils.CourtAvailabilityStatus | apps/web/src/lib/utils.ts:28-46 | The result is maintenance whenever the status lower-cases to "maintenance". It is occupied exactly when it is not maintenance and some booking contains now. It is available otherwise, including when the bookings are absent or empty. |
| WebUtils.HalfOpenBoundaries | apps/web/src/lib/utils.ts:38 | A booking occupies the court at its start but not at its end. |
| WebUtils.CapitalizeFirstLetter | apps/web/src/lib/utils.ts:9-11 | Length is preserved. The first character is upper-cased and the rest are lower-cased. |
| WebUtils.CapitalizeIdempotent | apps/web/src/lib/utils.ts:9-11 | Capitalising twice equals capitalising once. |
| Validation.NameIssues | apps/api/src/utils/validation.ts:3-6 | No issue exactly when 4 <= length <= 50. A short name gets the "atleast 4" message and a long one the "atmost 50" message. |
| Validation.PasswordIssues | apps/api/src/utils/validation.ts:8-11 | No issue exactly when 5 <= length <= 100. A violation gets the "atleast 5" or "atmost 100" message. |
| Validation.EmailIssues | apps/api/src/utils/validation.ts:7 | No issue exactly when the email satisfies the format predicate. |
| Validation.ParseRegistration | apps/api/src/utils/validation.ts:2-12 | Success exactly when all three constraints hold, returning the input unchanged. Otherwise there are one to three issues. |
| Validation.ReportedIssues | apps/api/src/utils/validation.ts:2-12 | Each of the five issues is reported exactly when its constraint is broken. |
| Validation.NameBoundsInclusive | apps/api/src/utils/validation.ts:5-6 | Names of 4 and 50 characters are accepted. Names of 3 and 51 fail with exactly their message. |
| Validation.PasswordBoundsInclusive | apps/api/src/utils/validation.ts:10-11 | Passwords of 5 and 100 characters are accepted. Passwords of 4 and 101 fail with exactly their message. |
| UserStore.SetUserSelected | apps/web/src/stores/userStore.ts:54-70 | After setUser(u), selectUser gives u and selectIsLoggedIn gives true. The loading flag is kept and the invariant isLoggedIn <=> user present holds. |
| UserStore.ClearedSelected | apps/web/src/stores/userStore.ts:46-50 | In the initial state there is no user, no one is signed in, nothing is loading, and the invariant holds. |
| UserStore.SelectUser | apps/web/src/stores/userStore.ts:68 | The state's user. A definition; SetUserSelected and ClearedSelected state what it reads. |
| UserStore.SelectIsLoggedIn | apps/web/src/stores/userStore.ts:69 | The state's sign-in flag. A definition; SetUserSelected and ClearedSelected state what it reads. |
| UserStore.SelectIsLoading | apps/web/src/stores/userStore.ts:70 | The state's loading flag. A definition; SetUserSelected and ClearedSelected state what it reads. |
| UserStore.Store.constructor | apps/web/src/stores/userStore.ts:52 | The store starts in the initial state. |
| UserStore.Store.SetState | apps/web/src/stores/userStore.ts:52 | The state is replaced and the new state is published. |
| UserStore.Store.SetUser | apps/web/src/stores/userStore.ts:54-62 | The user is set and the state becomes signed in. The loading flag is unchanged. |
| UserStore.Store.ClearUser | apps/web/src/stores/userStore.ts:64-66 | Every field returns to the initial state, the loading flag included. |
| UserStore.Store.LoadInitialState | apps/web/src/stores/userStore.ts:24-44 | First a state with loading set is published. The user is installed only for a "success" response that carries one. Finally the state is published with loading cleared. Otherwise user and sign-in are unchanged, and the invariant is preserved. |
| BookingsPage.StatusBadgeVariant | apps/web/src/routes/bookings.tsx:37-48 | The badge switch. A definition; BadgeOfEachStatus, UnknownStatusIsOutline and CancelExactlyOnPendingBadge state its mapping. |
| BookingsPage.BadgeOfEachStatus | apps/web/src/routes/bookings.tsx:37-47 | The badges are CONFIRMED default, PENDING secondary, CANCELLED destructive and COMPLETED outline. The four statuses get four distinct badges. |
| BookingsPage.UnknownStatusIsOutline | apps/web/src/routes/bookings.tsx:45-46 | Any other status gets the outline badge. |
| BookingsPage.ShowsCancel | apps/web/src/routes/bookings.tsx:104 | The Cancel action is shown for exactly the PENDING status. A definition; CancelExactlyOnPendingBadge and RenderBookings state its use. |
| BookingsPage.CancelExactlyOnPendingBadge | apps/web/src/routes/bookings.tsx:99-113 | The Cancel action appears exactly on rows with the secondary (pending) badge. |
| BookingsPage.DurationInMinutes | apps/web/src/routes/bookings.tsx:76 | The result is the nearest whole minute to the difference, with halves rounded up. |
| BookingsPage.DurationLabel | apps/web/src/routes/bookings.tsx:93-96 | The duration cell. A definition; DurationLabelShapes and DurationLabelRoundTrip state its shapes and that it is unambiguous. |
| BookingsPage.DurationLabelShapes | apps/web/src/routes/bookings.tsx:93-96 | Under 60 the label is "<d>min". With leftover minutes it is "<h>h <m>min". For whole hours it is "<h>h " with a trailing space. |
| BookingsPage.DurationLabelRoundTrip | apps/web/src/routes/bookings.tsx:93-96 | The label of every non-negative duration reads back as that duration. |
| BookingsPage.RenderBookings | apps/web/src/routes/bookings.tsx:54-117 | "No bookings found." is shown exactly when there are none. Otherwise there is one row per booking, in order, showing its court name, location, duration label, status and that status's badge. Cancel is shown exactly for PENDING. |
| DesktopModels.ParseLocalDateTime | apps/Desktop/src/main/java/org/courtbook/desktop/models/Booking.java:77 | `LocalDateTime.parse`: a four-digit year, a month 01-12, a day that exists in that month, an hour below 24 and a minute below 60, then optional seconds and fraction, with 'T' or 't' between date and time. A definition; LenientForms, NoZoneLetter and ShownFields state its properties. |
| DesktopModels.FormatTimestamp | apps/Desktop/src/main/java/org/courtbook/desktop/models/Booking.java:75-91 | Drop every 'Z', parse, and print as "yyyy-MM-dd HH:mm"; a null or unparsable timestamp comes back as it is. A definition; UnparsableShownAsIs, ShownFields, WellFormedShownToTheMinute and YearZeroShownAsYearOne state its results. |
| DesktopModels.UnparsableShownAsIs | apps/Desktop/src/main/java/org/courtbook/desktop/models/Booking.java:75-82 | A null timestamp, or one that does not parse once its 'Z's are removed, is returned unchanged. |
| DesktopModels.NoZoneLetter | apps/Desktop/src/main/java/org/courtbook/desktop/models/Booking.java:77 | A parsable local date-time contains no 'Z', so removing 'Z's leaves it as it is. |
| DesktopModels.ShownFields | apps/Desktop/src/main/java/org/courtbook/desktop/models/Booking.java:77-78 | A parsable timestamp is shown as year-of-era, its month and day, a space, and its hours and minutes as written. |
| DesktopModels.WellFormedShownToTheMinute | apps/Desktop/src/main/java/org/courtbook/desktop/models/Booking.java:77-78 | A well-formed ISO local date-time in years 1 to 9999, with or without a trailing 'Z', is shown as "yyyy-MM-dd HH:mm" taken from its own characters. |
| DesktopModels.YearZeroShownAsYearOne | apps/Desktop/src/main/java/org/courtbook/desktop/models/Booking.java:78 | Year 0000 parses but is shown as 0001, because the pattern prints year-of-era. |
| DesktopModels.LenientForms | apps/Desktop/src/main/java/org/courtbook/desktop/models/Booking.java:77 | A lower-case 't' separator, or a decimal point after the seconds with no fraction digits, parses to the same date-time as the canonical form. |
| DesktopModels.Court.Empty | apps/Desktop/src/main/java/org/courtbook/desktop/models/Court.java:14 | The no-argument court has id 0 and null fields. |
| DesktopModels.Court.constructor | apps/Desktop/src/main/java/org/courtbook/desktop/models/Court.java:16-21 | All four fields are set as given. |
| DesktopModels.User.Empty | apps/Desktop/src/main/java/org/courtbook/desktop/models/User.java:14 | The no-argument user has id 0 and null fields. |
| DesktopModels.User.constructor | apps/Desktop/src/main/java/org/courtbook/desktop/models/User.java:16-21 | Id, name, email and role are set as given. |
| DesktopModels.User.SetId | apps/Desktop/src/main/java/org/courtbook/desktop/models/User.java:25 | Sets the id and may change no other field. |
| DesktopModels.User.SetName | apps/Desktop/src/main/java/org/courtbook/desktop/models/User.java:28 | Sets the name and may change no other field. |
| DesktopModels.User.SetEmail | apps/Desktop/src/main/java/org/courtbook/desktop/models/User.java:31 | Sets the email and may change no other field. |
| DesktopModels.User.SetRole | apps/Desktop/src/main/java/org/courtbook/desktop/models/User.java:34 | Sets the role and may change no other field. |
| DesktopModels.User.IsAdmin | apps/Desktop/src/main/java/org/courtbook/desktop/models/User.java:36-38 | The role equals "ADMIN". A definition; AdminRoleIsExact states it. |
| DesktopModels.AdminRoleIsExact | apps/Desktop/src/main/java/org/courtbook/desktop/models/User.java:36-38 | A user is admin exactly when the role is "ADMIN". A null role and "admin" are not admin. |
| DesktopModels.Booking.Empty | apps/Desktop/src/main/java/org/courtbook/desktop/models/Booking.java:26 | The no-argument booking has zero ids and null fields. |
| DesktopModels.Booking.constructor | apps/Desktop/src/main/java/org/courtbook/desktop/models/Booking.java:28-35 | The six scalar fields are set as given, and user and court are left null. |
| DesktopModels.Booking.SetId | apps/Desktop/src/main/java/org/courtbook/desktop/models/Booking.java:39 | Sets the id and may change no other field. |
| DesktopModels.Booking.SetUserId | apps/Desktop/src/main/java/org/courtbook/desktop/models/Booking.java:42 | Sets the user id and may change no other field. |
| DesktopModels.Booking.SetCourtId | apps/Desktop/src/main/java/org/courtbook/desktop/models/Booking.java:45 | Sets the court id and may change no other field. |
| DesktopModels.Booking.SetStartTime | apps/Desktop/src/main/java/org/courtbook/desktop/models/Booking.java:48 | Sets the start time and may change no other field. |
| DesktopModels.Booking.SetEndTime | apps/Desktop/src/main/java/org/courtbook/desktop/models/Booking.java:51 | Sets the end time and may change no other field. |
| DesktopModels.Booking.SetStatus | apps/Desktop/src/main/java/org/courtbook/desktop/models/Booking.java:54 | Sets the status and may change no other field. |
| DesktopModels.Booking.SetUser | apps/Desktop/src/main/java/org/courtbook/desktop/models/Booking.java:57 | Sets the user and may change no other field. |
| DesktopModels.Booking.SetCourt | apps/Desktop/src/main/java/org/courtbook/desktop/models/Booking.java:60 | Sets the court and may change no other field. |
| DesktopModels.Booking.IsPending | apps/Desktop/src/main/java/org/courtbook/desktop/models/Booking.java:63-65 | The status equals "PENDING". A definition; StatusTests states the three tests together. |
| DesktopModels.Booking.IsConfirmed | apps/Desktop/src/main/java/org/courtbook/desktop/models/Booking.java:67-69 | The status equals "CONFIRMED". A definition; StatusTests states the three tests together. |
| DesktopModels.Booking.IsCancelled | apps/Desktop/src/main/java/org/courtbook/desktop/models/Booking.java:71-73 | The status equals "CANCELLED". A definition; StatusTests states the three tests together. |
| DesktopModels.StatusTests | apps/Desktop/src/main/java/org/courtbook/desktop/models/Booking.java:63-73 | At most one status test holds. For each server status, each test holds exactly for its own status, so COMPLETED satisfies none. A null status, and the lower-case "pending", "confirmed" and "cancelled", satisfy none. |
| DesktopModels.Booking.FormattedStartTime | apps/Desktop/src/main/java/org/courtbook/desktop/models/Booking.java:75-82 | The start time through FormatTimestamp. |
| DesktopModels.Booking.FormattedEndTime | apps/Desktop/src/main/java/org/courtbook/desktop/models/Booking.java:84-91 | The end time through FormatTimestamp. |
| ApiService.SaveReplacesForHost | apps/Desktop/src/main/java/org/courtbook/desktop/services/ApiService.java:38-46 | After a save, the host loads exactly the saved list and the last save wins. Every other host loads what it loaded before. |
| ApiService.NothingStoredLoadsEmpty | apps/Desktop/src/main/java/org/courtbook/desktop/services/ApiService.java:45 | A host with nothing stored loads an empty list. |
| ApiService.SimpleCookieJar.constructor | apps/Desktop/src/main/java/org/courtbook/desktop/services/ApiService.java:35 | The jar starts empty. |
| ApiService.SimpleCookieJar.SaveFromResponse | apps/Desktop/src/main/java/org/courtbook/desktop/services/ApiService.java:38-40 | The host's entry is replaced, and every other entry is kept. |
| ApiService.SimpleCookieJar.LoadForRequest | apps/Desktop/src/main/java/org/courtbook/desktop/services/ApiService.java:43-46 | Returns the host's stored list, or an empty list if none is stored. |
| ApiService.AuthHeaders | apps/Desktop/src/main/java/org/courtbook/desktop/services/ApiService.java:50-58 | There is at most one header. It is present exactly when the token is non-null and non-empty, and it is "Authorization: Bearer <token>". |
| ApiService.LoginError | apps/Desktop/src/main/java/org/courtbook/desktop/services/ApiService.java:71-94 | Login fails exactly when the reply does not carry a user: no reply, a non-2xx status, or a 2xx without data.user. |
| ApiService.TokenAfterLogin | apps/Desktop/src/main/java/org/courtbook/desktop/services/ApiService.java:80-91 | The token changes only to a present refresh token of a user carried by a successful reply, and such a reply always installs its refresh token. It is never cleared. |
| ApiService.LoginTokenEffect | apps/Desktop/src/main/java/org/courtbook/desktop/services/ApiService.java:75-91 | A failed login keeps the token, and so does a successful one whose user has no refresh token. After a login carrying a refresh token, requests carry that token, unless it is empty. |
| ApiService.ApiService.constructor | apps/Desktop/src/main/java/org/courtbook/desktop/services/ApiService.java:23-31 | The client starts with no token and an empty cookie jar. |
| ApiService.ApiService.CreateAuthenticatedRequestBuilder | apps/Desktop/src/main/java/org/courtbook/desktop/services/ApiService.java:50-59 | The Authorization header is added exactly when a non-empty token is held. |
| ApiService.ApiService.Login | apps/Desktop/src/main/java/org/courtbook/desktop/services/ApiService.java:61-95 | A non-2xx reply fails with its message or "Login failed" and its code. A reply with a user returns a new user with the payload's fields and stores the refresh token if present. Any other reply fails with "Invalid response format" and 500. A failure never changes the token. |
| ApiService.ApiService.Logout | apps/Desktop/src/main/java/org/courtbook/desktop/services/ApiService.java:224-236 | Any response from the server, successful or not, clears the token. With no response the I/O error propagates and the token is kept. |
| ApiService.ApiService.GetAllBookingsRequest | apps/Desktop/src/main/java/org/courtbook/desktop/services/ApiService.java:152-165 | The request is a GET of /api/courts/bookings. It has a courtId parameter exactly when a court id is given and a status parameter exactly when a status other than "ALL" is given. The query has exactly as many entries as parameters added, each named courtId or status, so there is no other or repeated parameter. It carries the auth headers. |
| Text.NatToStringValue | apps/web/src/lib/utils.ts:25 | Reading back the decimal rendering of n gives n. |
| Text.SplitAtSeparator | apps/web/src/lib/utils.ts:18 | Splitting a + sep + b gives the fields of a followed by the fields of b. |
| Text.RemoveAll | apps/Desktop/src/main/java/org/courtbook/desktop/models/Booking.java:77 | The result contains no 'Z'. A string without 'Z' is unchanged. |
| Text.RemoveAllAppend | apps/Desktop/src/main/java/org/courtbook/desktop/models/Booking.java:77 | Removal works piece by piece: removing from a + b is removing from a and then from b, so every other character survives in order. |
| Text.RemoveAllSingle | apps/Desktop/src/main/java/org/courtbook/desktop/models/Booking.java:77 | One character is dropped exactly when it is the removed one. |
| Text.RemoveAllInside | apps/Desktop/src/main/java/org/courtbook/desktop/models/Booking.java:77 | A 'Z' in the middle of a string, such as "2024-01-15TZ10:30", is dropped and the two sides are joined. |

## Left out

- The sweep's scheduler and runtime are not modelled: the cron schedule, `startScheduler`, `initialize`, the run on startup, the singleton accessor and console logging. "Now" is a parameter. The flag `isRunning` is a plain field; overlapping asynchronous runs (concurrency) are not modelled.
- StatusJob.BookingStatusJob.UpdateBookingStatuses: a database failure is a `Fault` input that makes one whole bulk update fail without changing rows. Partial failures inside one update, and other row columns, are not modelled.
- WebUtils.NumberOf: JavaScript's `Number` is modelled only for the empty string and plain decimal digit strings. Whitespace, signs, decimals, exponents and hexadecimal forms read as not-a-number, and the real function does not always do that. JavaScript numbers are IEEE doubles while the model reads digits as exact unbounded integers, so values agree only well below 2^53; above that `Number` loses digits. `cn` and `isNumber` are library-backed and left out.
- WebUtils.MinutesToTime: the input is an integer. Fractional minutes (floating point) are not modelled. The model's exact integer arithmetic, and with it MinutesRoundTrip and ClockTimeRoundTrip, matches the program's double arithmetic only for magnitudes well below 2^53 (about 6·10^16 minutes). Near 60·2^50, `minutes / 60` already rounds before `Math.floor`, and `toString` switches to exponent form from 1e21. The booking times the client handles are far below these magnitudes.
- WebUtils.CourtAvailabilityStatus: "now" is a parameter instead of the wall clock, and `toLowerCase` is modelled on ASCII letters only.
- WebUtils.CapitalizeFirstLetter: case mapping is ASCII only. Unicode case rules and UTF-16 code units are not modelled.
- Validation.EmailIssues: the email format check belongs to the validation library and is a predicate parameter. Inputs that are not strings, and the library's own message texts, are not modelled. Lengths count characters, not UTF-16 code units.
- The fetch inside `loadInitialState` is an input (`FetchResult`). The store's subscriber notification is recorded as the ghost sequence `published`.
- BookingsPage.DurationInMinutes: times are integer milliseconds, so the floating-point division before `Math.round` is not modelled. The date and time cells (library date formatting in the local time zone) and the still-unimplemented cancel handler are left out.
- DesktopModels.FormatTimestamp: `LocalDateTime.parse` is modelled on four-digit years, with optional seconds and a fraction of up to nine digits, under the strict resolver (day-of-month checked, second 60 rejected). Signed or wider years fall to the unchanged-timestamp path, although Java accepts some of them. The formatter internals are not modelled beyond "yyyy-MM-dd HH:mm".
- The getters of `User`, `Booking` and `Court`, and the `toString` methods, are not modelled: Dafny fields are read directly. The setters of `Court` are left out too, since `Court.java` is a data holder outside these rules.
- Networking in the desktop client is not modelled: HTTP execution, timeouts, JSON encoding and decoding, `getCurrentUser`, `getCourts`, `updateBookingStatus` and the decoding of the bookings list. Server replies are inputs. The login request body, built without JSON escaping from email and password, is not modelled.
- ApiService.ApiService.Login: a refresh token given as a non-string JSON value would be stored as its text form. The model takes it as an optional string.
- ApiService.ApiService.Logout: the logout request itself, and a failure to close the response, are not modelled. Only whether a response arrived matters.
- The web API service, the React hooks, the pages and components, the Swing screens, configuration and server wiring are outside the core and not modelled.
