/**
 * The client and the API together: what the request of a calendar card binds
 * to on the server, what the gate answers for each kind of card, and which
 * text the client shows for each error the gate can send.
 */
module Release {
  import opened Wrappers
  import opened Calendar
  import opened DateText
  import opened Responses
  import opened Adventures
  import opened ClientApp

  // ----- The request on the server side -----

  /**
   * The binding of the `searchDateTime` query value in the form the client
   * sends, `<date>THH:mm:ss`, to a DateTime; None when it is not of that form
   * or names no valid date and time.
   */
  function BindSearchDateTime(query: string): (t: Option<DateTime>)
    ensures t.Some? ==> ValidDateTime(t.value)
  {
    var n := |query|;
    if n < 9 || query[n - 9] != 'T' || query[n - 6] != ':' || query[n - 3] != ':' then None
    else
      match (ParseDate(query[..n - 9]), ParseNumber(query[n - 8..n - 6]), ParseNumber(query[n - 5..n - 3]), ParseNumber(query[n - 2..]))
      case (Some(d), Some(h), Some(m), Some(s)) =>
        var t := DateTime(d, h, m, s);
        if ValidDateTime(t) then Some(t) else None
      case _ => None
  }

  /** The headers the request carries; the browser's timezone is always sent. */
  function HeadersOf(request: FetchRequest): Headers {
    Headers(Some(request.timeZone), request.skipInRange, request.skipNotAppeared, request.skipPassed)
  }

  lemma MidnightSuffix(query: string, date: string, d: Date)
    requires query == date + "T00:00:00"
    requires ParseDate(date) == Some(d) && ValidDateTime(DateTime(d, 0, 0, 0))
    ensures BindSearchDateTime(query) == Some(DateTime(d, 0, 0, 0))
  {
    var n := |query|;
    assert query[..n - 9] == date;
    assert query[n - 8..n - 6] == [DigitChar(0), DigitChar(0)];
    assert query[n - 5..n - 3] == [DigitChar(0), DigitChar(0)];
    assert query[n - 2..] == [DigitChar(0), DigitChar(0)];
    TwoDigitsRoundTrip(0);
  }

  /** The request of a card binds on the server to midnight of the card's date, whatever the zone and the secrets. */
  lemma RequestBindsToCardDate(d: Date, zone: string, secrets: SkipSecrets)
    requires Valid(d) && d.year <= 9999
    ensures Printable(d)
    ensures BindSearchDateTime(RequestFor(d, zone, secrets).searchDateTime) == Some(DateTime(d, 0, 0, 0))
  {
    ValidIsPrintable(d);
    RequestDateRoundTrip(d);
    MidnightSuffix(RequestFor(d, zone, secrets).searchDateTime, RequestDate(d), d);
  }

  /** A secret reaches its header exactly when it is truthy, so an empty secret unlocks nothing. */
  lemma SecretHeaders(d: Date, zone: string, secrets: SkipSecrets)
    requires Printable(d)
    ensures var h := HeadersOf(RequestFor(d, zone, secrets));
      (Unlocks(InRangeSecret, h.skipInRange) <==> secrets.first == Some(InRangeSecret))
      && (Unlocks(NotAppearedSecret, h.skipNotAppeared) <==> secrets.second == Some(NotAppearedSecret))
      && (Unlocks(PassedSecret, h.skipPassed) <==> secrets.third == Some(PassedSecret))
  {
    assert |InRangeSecret| > 0 && |NotAppearedSecret| > 0 && |PassedSecret| > 0;
  }

  // ----- A calendar card against the gate -----

  /** The host's clock shows the client's UTC date, on a host whose zone is UTC. */
  predicate SameDay(server: Server, today: Date) {
    ValidDateTime(server.utcNow) && server.utcNow.date == today && server.localOffset == 0
  }

  /**
   * The gate's answer to the request of a card: today's card gets the message
   * or the missing-message 500; a past card without the `third` secret gets
   * SearchDatePassed; a future card without the `second` secret gets
   * SearchDateHasNotAppeared.
   */
  predicate CardAnswer(info: DateInfo, zone: string, secrets: SkipSecrets, server: Server)
    requires ValidDateTime(DateTime(info.date, 0, 0, 0)) && ValidDateTime(server.utcNow)
  {
    var r := GetAdventure(DateTime(info.date, 0, 0, 0), HeadersOf(RequestFor(info.date, zone, secrets)), server);
    (info.isToday ==> r.Ok? || Fails(r, 500, SearchDateHasNotAppeared))
    && (info.isPast && secrets.third != Some(PassedSecret) ==> Fails(r, 400, SearchDatePassed))
    && (info.isFuture && secrets.second != Some(NotAppearedSecret) ==> Fails(r, 400, SearchDateHasNotAppeared))
  }

  /** Every card of the calendar, clicked with an accepted browser zone, gets its CardAnswer; no card ever hits the window check. */
  lemma CardOutcome(today: Date, k: nat, zone: string, secrets: SkipSecrets, server: Server)
    requires k < 15 && SameDay(server, today)
    requires ZoneAccepted(Headers(Some(zone), None, None, None), server)
    ensures var info := CalendarFor(today)[k];
      ValidDateTime(DateTime(info.date, 0, 0, 0)) && InWindow(AsUtc(DateTime(info.date, 0, 0, 0)))
      && CardAnswer(info, zone, secrets, server)
  {
    var info := CalendarFor(today)[k];
    CardInstant(today, k, server);
    AnswerByOrder(info, zone, secrets, server);
  }

  /** A date in the window answers as CardAnswer says once its class agrees with the order of its midnight and the server's today. */
  lemma AnswerByOrder(info: DateInfo, zone: string, secrets: SkipSecrets, server: Server)
    requires ValidDateTime(DateTime(info.date, 0, 0, 0)) && ValidDateTime(server.utcNow)
    requires InWindow(AsUtc(DateTime(info.date, 0, 0, 0)))
    requires ZoneAccepted(Headers(Some(zone), None, None, None), server)
    requires info.isToday ==> Today(server) == AsUtc(DateTime(info.date, 0, 0, 0))
    requires info.isPast ==> Today(server) > AsUtc(DateTime(info.date, 0, 0, 0))
    requires info.isFuture ==> Today(server) < AsUtc(DateTime(info.date, 0, 0, 0))
    ensures CardAnswer(info, zone, secrets, server)
  {
    var search := DateTime(info.date, 0, 0, 0);
    ValidIsPrintable(info.date);
    SecretHeaders(info.date, zone, secrets);
    var headers := HeadersOf(RequestFor(info.date, zone, secrets));
    assert PassesWindow(search, headers) && ZoneAccepted(headers, server);
    if info.isToday {
      if IsNullOrWhiteSpace(server.dailyMessage(AsUtc(search))) {
        BlankMessageFails(search, headers, server);
      } else {
        MessageReleased(search, headers, server);
      }
    }
    if info.isPast && secrets.third != Some(PassedSecret) {
      PassedFails(search, headers, server);
    }
    if info.isFuture && secrets.second != Some(NotAppearedSecret) {
      NotAppearedFails(search, headers, server);
    }
  }

  /** Midnight of card k lies in the window, and its classification is the order of that instant and the server's today. */
  lemma CardInstant(today: Date, k: nat, server: Server)
    requires k < 15 && SameDay(server, today)
    ensures var info := CalendarFor(today)[k];
      var search := DateTime(info.date, 0, 0, 0);
      ValidDateTime(search) && InWindow(AsUtc(search))
      && (info.isToday <==> Today(server) == AsUtc(search))
      && (info.isPast <==> Today(server) > AsUtc(search))
      && (info.isFuture <==> Today(server) < AsUtc(search))
  {
    var info := CalendarFor(today)[k];
    var search := DateTime(info.date, 0, 0, 0);
    CalendarIsContiguous();
    assert ValidDateTime(search);
    WindowIsLateDecember(search);
    ClassesByDayNumber(info.date, today);
    assert Today(server) == DayNumber(today) * SecondsPerDay;
    assert AsUtc(search) == DayNumber(info.date) * SecondsPerDay;
  }

  /**
   * The comparison with "today" uses the host's local offset: on a host ahead
   * of UTC, today's card without secrets is refused as not yet appeared; on a
   * host behind UTC it is refused as passed.
   */
  lemma HostOffsetShiftsToday(today: Date, zone: string, server: Server)
    requires Valid(today) && today.year == 2025 && today.month == 12 && 10 <= today.day
    requires ValidDateTime(server.utcNow) && server.utcNow.date == today
    requires ZoneAccepted(Headers(Some(zone), None, None, None), server)
    ensures var r := GetAdventure(DateTime(today, 0, 0, 0), Headers(Some(zone), None, None, None), server);
      (server.localOffset > 0 ==> Fails(r, 400, SearchDateHasNotAppeared))
      && (server.localOffset < 0 ==> Fails(r, 400, SearchDatePassed))
  {
    var search := DateTime(today, 0, 0, 0);
    var headers := Headers(Some(zone), None, None, None);
    WindowIsLateDecember(search);
    assert AsUtc(search) == DayNumber(today) * SecondsPerDay;
    assert Today(server) == AsUtc(search) - server.localOffset;
    if server.localOffset > 0 {
      NotAppearedFails(search, headers, server);
    } else if server.localOffset < 0 {
      PassedFails(search, headers, server);
    }
  }

  // ----- Errors as the client reads them -----

  /** An error on the wire: the enums as their numbers (no string enum converter is configured). */
  function ToWire(e: Error): (w: WireError)
    ensures CodeOfNumber(w.code) == Some(e.code)
    ensures w.errorType == 0 <==> e.errorType == InvalidRequestParameters
  {
    CodeNumberRoundTrip(e.code, 0);
    WireError(TypeNumber(e.errorType), CodeNumber(e.code))
  }

  /** The text each server error deserves, by type and code: the reference the client's numeric table is checked against. */
  function DisplayText(e: Error): string {
    match e.errorType
    case InvalidRequestParameters =>
      (match e.code
       case InvalidSearchDate => InvalidDateText
       case InvalidUserTimeZone => InvalidZoneText
       case SearchDatePassed => PassedMessage
       case SearchDateHasNotAppeared => WaitText
       case ResourceIsNotConfigured => NotConfiguredText)
    case InternalServerError =>
      if e.code == ResourceIsNotConfigured then NotConfiguredText else InternalErrorText
  }

  /** The client's table on numbers shows every server error with the text its type and code deserve; none reads as unexpected. */
  lemma WireMessagesMatch(e: Error)
    ensures ErrorMessage(Some(ToWire(e))) == DisplayText(e)
    ensures ErrorMessage(Some(ToWire(e))) != UnexpectedText
  {
    RequestErrorMessages(CodeNumber(e.code));
    ServerErrorMessages(CodeNumber(e.code));
  }

  /** The parts of a gate result the client reads. */
  function ReplyOf(r: ActionResult): (reply: FetchReply)
    ensures reply.ok <==> 200 <= StatusCode(r) < 300
  {
    var errors := Errors(r);
    FetchReply(
      r.Ok?,
      if r.Ok? && r.payload.data.Some? then Some(r.payload.data.value.message) else None,
      if errors.Some? then Some(seq(|errors.value|, i requires 0 <= i < |errors.value| => ToWire(errors.value[i]))) else None)
  }

  /**
   * What a card shows for each gate answer: the message for 200, otherwise the
   * text for the failure's code; the missing-message 500 reads as "wait, a new
   * adventure is coming".
   */
  lemma ShownText(search: DateTime, headers: Headers, server: Server)
    requires ValidDateTime(search) && ValidDateTime(server.utcNow)
    ensures var r := GetAdventure(search, headers, server);
      var reply := ReplyOf(r);
      (r.Ok? ==> reply.ok && reply.message == Some(r.payload.data.value.message))
      && (!r.Ok? ==>
            !reply.ok
            && ErrorMessage(FirstError(reply.errors)) == RequestErrorTexts()[CodeNumber(Errors(r).value[0].code)])
      && (StatusCode(r) == 500 ==> ErrorMessage(FirstError(reply.errors)) == WaitText)
  {
    ShownTextOf(GetAdventure(search, headers, server));
  }

  /** ShownText for any answer of the gate's shape. */
  lemma ShownTextOf(r: ActionResult)
    requires r.Ok? ==> r.payload.data.Some?
    requires !r.Ok? ==> Errors(r).Some? && |Errors(r).value| == 1 && Errors(r).value[0].errorType == InvalidRequestParameters
    requires StatusCode(r) == 500 ==> Errors(r).value[0].code == SearchDateHasNotAppeared
    ensures var reply := ReplyOf(r);
      (r.Ok? ==> reply.ok && reply.message == Some(r.payload.data.value.message))
      && (!r.Ok? ==>
            !reply.ok
            && ErrorMessage(FirstError(reply.errors)) == RequestErrorTexts()[CodeNumber(Errors(r).value[0].code)])
      && (StatusCode(r) == 500 ==> ErrorMessage(FirstError(reply.errors)) == WaitText)
  {
    if !r.Ok? {
      var e := Errors(r).value[0];
      assert FirstError(ReplyOf(r).errors) == Some(ToWire(e));
      WireMessagesMatch(e);
      RequestErrorMessages(CodeNumber(e.code));
    }
  }
}
