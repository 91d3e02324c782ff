/**
 * GET /api/Adventures, AdventuresController.GetAdventure: the release gate for
 * the message of a campaign day. It is a chain of early returns:
 *   1. the requested instant must lie in [2025-12-10T00:00Z, 2026-01-01T00:00Z);
 *   2. an X-Timezone header must be present and not blank;
 *   3. the header must name a timezone the host knows;
 *   4. "today" must not be later than the requested instant (already passed);
 *   5. "today" must not be earlier than it (not yet appeared);
 *   6. the daily message provider must hold a non-blank message for it.
 * Rules 1, 4 and 5 are each skipped when their own secret header carries
 * exactly the secret constant. The clock, the host's offset, the timezone
 * table and the provider are parameters (Server).
 */
module Adventures {
  import opened Wrappers
  import opened Calendar
  import opened DateText
  import opened Responses

  /** A point in time: whole seconds since 1970-01-01T00:00:00Z. */
  type Instant = int

  const SecondsPerDay: int := 86400

  /** A System.DateTime as the query string binds it: a date and a time of day. */
  datatype DateTime = DateTime(date: Date, hour: int, minute: int, second: int)

  predicate ValidDateTime(t: DateTime) {
    Valid(t.date) && t.date.year <= 9999
    && 0 <= t.hour < 24 && 0 <= t.minute < 60 && 0 <= t.second < 60
  }

  function SecondOfDay(t: DateTime): int {
    t.hour * 3600 + t.minute * 60 + t.second
  }

  /** `new DateTimeOffset(t, TimeSpan.Zero)`: the wall-clock value read as UTC. */
  function AsUtc(t: DateTime): (at: Instant)
    requires ValidDateTime(t)
    ensures DayNumber(t.date) * SecondsPerDay <= at < (DayNumber(t.date) + 1) * SecondsPerDay
  {
    DayNumber(t.date) * SecondsPerDay + SecondOfDay(t)
  }

  const InRangeSecret: string := "CggAEEUYFhgeGDkyCggBEAAYgA_secret_to_skip_date_in_range"
  const NotAppearedSecret: string := "EgZjaHJvbWUyCggAE_secret_to_skip_date_has_not_appeared"
  const PassedSecret: string := "AYgAQYogQyCggDEAAYogQYiQUyC_secret_to_skip_date_passed"

  /** 2025-12-10T00:00Z, the first instant of the campaign (inclusive). */
  const WindowStart: Instant := DayNumber(Date(2025, 12, 10)) * SecondsPerDay

  /** 2026-01-01T00:00Z, the first instant after the campaign (exclusive). */
  const WindowEnd: Instant := DayNumber(Date(2026, 1, 1)) * SecondsPerDay

  predicate InWindow(at: Instant) {
    WindowStart <= at < WindowEnd
  }

  /** The request headers the action reads; None is an absent header. */
  datatype Headers = Headers(
    timeZone: Option<string>,         // X-Timezone
    skipInRange: Option<string>,      // Adventy-SkipSearchDateInRangeValidationSecret
    skipNotAppeared: Option<string>,  // Adventy-SkipSearchDateHasNotAppearedValidationSecret
    skipPassed: Option<string>)       // Adventy-SkipSearchDatePassedValidationSecret

  /** `secret.Equals(header, ...)`: an absent header never matches. */
  predicate Unlocks(secret: string, header: Option<string>) {
    header == Some(secret)
  }

  /** What the action takes from its surroundings. */
  datatype Server = Server(
    utcNow: DateTime,                         // DateTimeOffset.UtcNow
    localOffset: int,                         // seconds the host's zone is ahead of UTC on that day
    zoneExists: string -> bool,               // FindSystemTimeZoneById succeeds
    dailyMessage: Instant -> Option<string>)  // DailyMessageProvider.GetMessageForDate

  /**
   * `DateTimeOffset.UtcNow.Date` as a DateTimeOffset: the UTC calendar date at
   * midnight, with the host's local offset (the conversion from a DateTime of
   * unspecified kind). Converting it into the user's zone keeps this instant.
   */
  function Today(server: Server): Instant
    requires ValidDateTime(server.utcNow)
  {
    DayNumber(server.utcNow.date) * SecondsPerDay - server.localOffset
  }

  /** char.IsWhiteSpace: the Unicode space separators, line and paragraph separators, U+0009 to U+000D and U+0085. */
  predicate IsWhiteSpace(c: char) {
    c == ' ' || '\t' <= c <= '\r' || c == '\U{0085}' || c == '\U{00A0}' || c == '\U{1680}'
    || '\U{2000}' <= c <= '\U{200A}' || c == '\U{2028}' || c == '\U{2029}'
    || c == '\U{202F}' || c == '\U{205F}' || c == '\U{3000}'
  }

  /** Every character of `s` is white space (true of the empty string). */
  predicate AllWhiteSpace(s: string) {
    |s| == 0 || (IsWhiteSpace(s[0]) && AllWhiteSpace(s[1..]))
  }

  /** string.IsNullOrWhiteSpace. */
  predicate IsNullOrWhiteSpace(s: Option<string>) {
    s.None? || AllWhiteSpace(s.value)
  }

  /** Api.Contracts.Adventure.Adventure: the message of the day. */
  datatype Adventure = Adventure(message: string)

  /** The three action results: Ok (200), BadRequest (400), StatusCode(500). */
  datatype ActionResult =
    | Ok(payload: DataResponse<Adventure>)
    | BadRequest(body: Response)
    | ServerError(body: Response)

  function StatusCode(r: ActionResult): int {
    match r
    case Ok(_) => 200
    case BadRequest(_) => 400
    case ServerError(_) => 500
  }

  /** The `errors` list of the envelope the result carries. */
  function Errors(r: ActionResult): Option<seq<Error>> {
    match r
    case Ok(p) => p.errors
    case BadRequest(b) => b.errors
    case ServerError(b) => b.errors
  }

  /** `r` is a failure with status `status` whose one error has type InvalidRequestParameters and code `code`. */
  predicate Fails(r: ActionResult, status: int, code: ErrorCode) {
    StatusCode(r) == status
    && Errors(r).Some? && |Errors(r).value| == 1
    && Errors(r).value[0].errorType == InvalidRequestParameters
    && Errors(r).value[0].code == code
  }

  const OutOfRangeText: string := "Search date must be in range from 10th of December 2025 up to 31st of December 2025."
  const NoZoneText: string := "No user time zone has been provided. User time zone must be provided in format of IANA Id."
  const UnknownZoneText: string := "User time zone must be provided in format of IANA Id."

  // The formats of the three date messages: the date is printed between the head and the tail.
  const RequestedDate: string := "Requested date "
  const PassedTail: string := " already passed and are not currently accessible."
  const NotAppearedTail: string := " is not yet appeared, please wait a little bit."
  const NotMappedTail: string := " does not have mapped task, please contact hr."

  function PassedText(t: DateTime): string
    requires ValidDateTime(t)
  {
    ValidIsPrintable(t.date);
    RequestedDate + DotNetDate(t.date) + PassedTail
  }

  function NotAppearedText(t: DateTime): string
    requires ValidDateTime(t)
  {
    ValidIsPrintable(t.date);
    RequestedDate + DotNetDate(t.date) + NotAppearedTail
  }

  function NotMappedText(t: DateTime): string
    requires ValidDateTime(t)
  {
    ValidIsPrintable(t.date);
    RequestedDate + DotNetDate(t.date) + NotMappedTail
  }

  function Reject(code: ErrorCode, message: string): ActionResult {
    BadRequest(ErrorResponse(Error(InvalidRequestParameters, code, message)))
  }

  /** GetAdventure(searchDateTime, X-Timezone, the three secret headers). */
  function GetAdventure(search: DateTime, headers: Headers, server: Server): (r: ActionResult)
    requires ValidDateTime(search) && ValidDateTime(server.utcNow)
    ensures r.Ok? ==> r.payload.data.Some? && r.payload.errors.None?
    ensures !r.Ok? ==> Errors(r).Some? && |Errors(r).value| == 1
    ensures !r.Ok? ==> Errors(r).value[0].errorType == InvalidRequestParameters
    ensures !r.Ok? ==> Errors(r).value[0].code != ResourceIsNotConfigured
    ensures StatusCode(r) == 500 ==> Errors(r).value[0].code == SearchDateHasNotAppeared
  {
    var at := AsUtc(search);
    var skipInRange := Unlocks(InRangeSecret, headers.skipInRange);
    var skipNotAppeared := Unlocks(NotAppearedSecret, headers.skipNotAppeared);
    var skipPassed := Unlocks(PassedSecret, headers.skipPassed);
    if !skipInRange && (at < WindowStart || at >= WindowEnd) then
      Reject(InvalidSearchDate, OutOfRangeText)
    else if IsNullOrWhiteSpace(headers.timeZone) then
      Reject(InvalidUserTimeZone, NoZoneText)
    else if !server.zoneExists(headers.timeZone.value) then
      Reject(InvalidUserTimeZone, UnknownZoneText)
    else
      var today := Today(server);
      if !skipPassed && today > at then
        Reject(SearchDatePassed, PassedText(search))
      else if !skipNotAppeared && today < at then
        Reject(SearchDateHasNotAppeared, NotAppearedText(search))
      else
        var message := server.dailyMessage(at);
        if IsNullOrWhiteSpace(message) then
          ServerError(ErrorResponse(Error(InvalidRequestParameters, SearchDateHasNotAppeared, NotMappedText(search))))
        else
          Ok(DataOf(Adventure(message.value)))
  }

  /** The window check passes: the date is in the window or its secret unlocks it. */
  predicate PassesWindow(search: DateTime, headers: Headers)
    requires ValidDateTime(search)
  {
    Unlocks(InRangeSecret, headers.skipInRange) || InWindow(AsUtc(search))
  }

  /** The timezone header is present, not blank and known to the host. */
  predicate ZoneAccepted(headers: Headers, server: Server) {
    !IsNullOrWhiteSpace(headers.timeZone) && server.zoneExists(headers.timeZone.value)
  }

  // ----- Properties of the gate -----

  /** The window is [2025-12-10T00:00Z, 2026-01-01T00:00Z): exactly the instants of 10 to 31 December 2025. */
  lemma WindowIsLateDecember(t: DateTime)
    requires ValidDateTime(t)
    ensures InWindow(AsUtc(t)) <==> t.date.year == 2025 && t.date.month == 12 && 10 <= t.date.day
  {
    var first, end := Date(2025, 12, 10), Date(2026, 1, 1);
    DayNumberOrder(t.date, first);
    DayNumberOrder(t.date, end);
    assert WindowStart == DayNumber(first) * SecondsPerDay;
    assert WindowEnd == DayNumber(end) * SecondsPerDay;
    assert AsUtc(t) < WindowStart <==> DayNumber(t.date) < DayNumber(first);
    assert AsUtc(t) < WindowEnd <==> DayNumber(t.date) < DayNumber(end);
  }

  /** Without the in-range secret an instant outside the window fails with 400 / InvalidSearchDate, whatever the timezone header says. */
  lemma OutOfWindowFails(search: DateTime, headers: Headers, server: Server)
    requires ValidDateTime(search) && ValidDateTime(server.utcNow)
    requires !Unlocks(InRangeSecret, headers.skipInRange) && !InWindow(AsUtc(search))
    ensures Fails(GetAdventure(search, headers, server), 400, InvalidSearchDate)
  {
  }

  /** Past the window check, a missing, blank or unknown timezone fails with 400 / InvalidUserTimeZone; no secret helps. */
  lemma BadZoneFails(search: DateTime, headers: Headers, server: Server)
    requires ValidDateTime(search) && ValidDateTime(server.utcNow)
    requires PassesWindow(search, headers) && !ZoneAccepted(headers, server)
    ensures Fails(GetAdventure(search, headers, server), 400, InvalidUserTimeZone)
  {
  }

  /** A requested instant earlier than today fails with 400 / SearchDatePassed unless the passed secret is given; this check comes first. */
  lemma PassedFails(search: DateTime, headers: Headers, server: Server)
    requires ValidDateTime(search) && ValidDateTime(server.utcNow)
    requires PassesWindow(search, headers) && ZoneAccepted(headers, server)
    requires Today(server) > AsUtc(search) && !Unlocks(PassedSecret, headers.skipPassed)
    ensures Fails(GetAdventure(search, headers, server), 400, SearchDatePassed)
  {
  }

  /** A requested instant later than today fails with 400 / SearchDateHasNotAppeared unless the not-appeared secret is given. */
  lemma NotAppearedFails(search: DateTime, headers: Headers, server: Server)
    requires ValidDateTime(search) && ValidDateTime(server.utcNow)
    requires PassesWindow(search, headers) && ZoneAccepted(headers, server)
    requires Today(server) < AsUtc(search) && !Unlocks(NotAppearedSecret, headers.skipNotAppeared)
    ensures Fails(GetAdventure(search, headers, server), 400, SearchDateHasNotAppeared)
  {
  }

  /** Once every check passes, a missing or blank message gives 500 with (InvalidRequestParameters, SearchDateHasNotAppeared). */
  lemma BlankMessageFails(search: DateTime, headers: Headers, server: Server)
    requires ValidDateTime(search) && ValidDateTime(server.utcNow)
    requires PassesWindow(search, headers) && ZoneAccepted(headers, server)
    requires Unlocks(PassedSecret, headers.skipPassed) || Today(server) <= AsUtc(search)
    requires Unlocks(NotAppearedSecret, headers.skipNotAppeared) || Today(server) >= AsUtc(search)
    requires IsNullOrWhiteSpace(server.dailyMessage(AsUtc(search)))
    ensures Fails(GetAdventure(search, headers, server), 500, SearchDateHasNotAppeared)
  {
  }

  /** Once every check passes, a message that is not blank is answered with 200 carrying it verbatim. */
  lemma MessageReleased(search: DateTime, headers: Headers, server: Server)
    requires ValidDateTime(search) && ValidDateTime(server.utcNow)
    requires PassesWindow(search, headers) && ZoneAccepted(headers, server)
    requires Unlocks(PassedSecret, headers.skipPassed) || Today(server) <= AsUtc(search)
    requires Unlocks(NotAppearedSecret, headers.skipNotAppeared) || Today(server) >= AsUtc(search)
    requires !IsNullOrWhiteSpace(server.dailyMessage(AsUtc(search)))
    ensures GetAdventure(search, headers, server) == Ok(DataOf(Adventure(server.dailyMessage(AsUtc(search)).value)))
  {
  }

  /** With no secret headers, the message is released exactly when the instant is in the window, the zone is accepted, it is today's midnight and a message exists. */
  lemma ReleaseWithoutSecrets(search: DateTime, zone: Option<string>, server: Server)
    requires ValidDateTime(search) && ValidDateTime(server.utcNow)
    ensures var r := GetAdventure(search, Headers(zone, None, None, None), server);
      r.Ok? <==>
        InWindow(AsUtc(search)) && ZoneAccepted(Headers(zone, None, None, None), server)
        && Today(server) == AsUtc(search) && !IsNullOrWhiteSpace(server.dailyMessage(AsUtc(search)))
  {
  }

  /** A secret header that is absent or differs from its constant acts exactly as no header at all. */
  lemma WrongSecretIsNoSecret(search: DateTime, headers: Headers, server: Server)
    requires ValidDateTime(search) && ValidDateTime(server.utcNow)
    ensures !Unlocks(InRangeSecret, headers.skipInRange) ==>
      GetAdventure(search, headers, server) == GetAdventure(search, headers.(skipInRange := None), server)
    ensures !Unlocks(NotAppearedSecret, headers.skipNotAppeared) ==>
      GetAdventure(search, headers, server) == GetAdventure(search, headers.(skipNotAppeared := None), server)
    ensures !Unlocks(PassedSecret, headers.skipPassed) ==>
      GetAdventure(search, headers, server) == GetAdventure(search, headers.(skipPassed := None), server)
  {
  }

  /** Each secret disables only its own rule: where that rule would not fire, its header does not change the result. */
  lemma SecretsAreIndependent(search: DateTime, headers: Headers, server: Server, other: Option<string>)
    requires ValidDateTime(search) && ValidDateTime(server.utcNow)
    ensures InWindow(AsUtc(search)) ==>
      GetAdventure(search, headers, server) == GetAdventure(search, headers.(skipInRange := other), server)
    ensures Today(server) <= AsUtc(search) ==>
      GetAdventure(search, headers, server) == GetAdventure(search, headers.(skipPassed := other), server)
    ensures Today(server) >= AsUtc(search) ==>
      GetAdventure(search, headers, server) == GetAdventure(search, headers.(skipNotAppeared := other), server)
  {
  }

  /** The user's timezone only has to exist: any two timezone tables that both know it give the same result. */
  lemma ZoneOnlyValidates(search: DateTime, headers: Headers, server: Server, table: string -> bool)
    requires ValidDateTime(search) && ValidDateTime(server.utcNow)
    requires ZoneAccepted(headers, server) && ZoneAccepted(headers, server.(zoneExists := table))
    ensures GetAdventure(search, headers, server) == GetAdventure(search, headers, server.(zoneExists := table))
  {
    var other := server.(zoneExists := table);
    assert Today(other) == Today(server) && other.dailyMessage == server.dailyMessage;
    if Unlocks(InRangeSecret, headers.skipInRange) || InWindow(AsUtc(search)) {
      assert server.zoneExists(headers.timeZone.value) && other.zoneExists(headers.timeZone.value);
    }
  }
}
