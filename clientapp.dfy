/**
 * The web client (App.jsx): the message shown for an API error, the campaign
 * calendar with each day classified against today's UTC date, the filter that
 * hides past days, and the card-click state machine that decides whether to
 * ask the API for a day's message.
 */
module ClientApp {
  import opened Wrappers
  import opened Calendar
  import opened DateText

  // ----- getErrorMessage -----

  const UnexpectedText: string := "⚠️ Неожиданная ошибка. Пожалуйста, обратитесь к администратору."
  const InvalidDateText: string := "⚠️ Неверная дата запроса. Если вы уверены, что все делаете правильно, пожалуйста, напишите администратору."
  const InvalidZoneText: string := "⚠️ Неверный часовой пояс. Пожалуйста, обратитесь к администратору."
  const PassedMessage: string := "📅 Дата уже прошла, пора выполнять следующие задания!"
  const WaitText: string := "⏳ Обожди, не торопись, скоро новое приключение будет доступно!"
  const NotConfiguredText: string := "⚠️ Ресурс не настроен. Пожалуйста, обратитесь к администратору."
  const InvalidRequestText: string := "⚠️ Неверный запрос. Пожалуйста, обратитесь к администратору."
  const InternalErrorText: string := "⚠️ Внутренняя ошибка сервера. Пожалуйста, обратитесь к администратору."

  /** An entry of the response's `errors` array as the client reads it: the numeric `type` and `code`. */
  datatype WireError = WireError(errorType: int, code: int)

  /** getErrorMessage: the text shown for the first error of a failed response (None: no error at all). */
  function ErrorMessage(error: Option<WireError>): string {
    match error
    case None => UnexpectedText
    case Some(e) =>
      if e.errorType == 0 then
        if e.code == 0 then InvalidDateText
        else if e.code == 1 then InvalidZoneText
        else if e.code == 2 then PassedMessage
        else if e.code == 3 then WaitText
        else if e.code == 4 then NotConfiguredText
        else InvalidRequestText
      else if e.errorType == 1 then
        if e.code == 4 then NotConfiguredText else InternalErrorText
      else UnexpectedText
  }

  /** `data.errors?.[0]`: the first error, if the list is present and not empty. */
  function FirstError(errors: Option<seq<WireError>>): (first: Option<WireError>)
    ensures first.Some? <==> errors.Some? && |errors.value| > 0
    ensures first.Some? ==> first.value == errors.value[0]
  {
    if errors.Some? && |errors.value| > 0 then Some(errors.value[0]) else None
  }

  /** The texts for type 0 (invalid request parameters), one per code 0 to 4, then the fallback. */
  function RequestErrorTexts(): seq<string> {
    [InvalidDateText, InvalidZoneText, PassedMessage, WaitText, NotConfiguredText, InvalidRequestText]
  }

  /** Type 0: codes 0 to 4 each have their own text, every other code the generic invalid-request text. */
  lemma RequestErrorMessages(code: int)
    ensures 0 <= code <= 4 ==> ErrorMessage(Some(WireError(0, code))) == RequestErrorTexts()[code]
    ensures !(0 <= code <= 4) ==> ErrorMessage(Some(WireError(0, code))) == InvalidRequestText
    ensures forall i, j :: 0 <= i < j < |RequestErrorTexts()| ==> RequestErrorTexts()[i] != RequestErrorTexts()[j]
  {
    var texts := RequestErrorTexts();
    assert |texts[0]| == 106 && |texts[1]| == 66 && |texts[2]| == 52;
    assert |texts[3]| == 62 && |texts[4]| == 63 && |texts[5]| == 60;
  }

  /** Type 1 (internal server error): only code 4 has its own text; type 1 code 4 and type 0 code 4 read alike. */
  lemma ServerErrorMessages(code: int)
    ensures ErrorMessage(Some(WireError(1, code))) == (if code == 4 then NotConfiguredText else InternalErrorText)
    ensures ErrorMessage(Some(WireError(1, 4))) == ErrorMessage(Some(WireError(0, 4)))
  {
  }

  /** No error, or a type other than 0 and 1, gives the generic unexpected-error text. */
  lemma UnknownErrorMessages(error: Option<WireError>)
    ensures error.None? || !(0 <= error.value.errorType <= 1) ==> ErrorMessage(error) == UnexpectedText
  {
  }

  // ----- The calendar (the `dates` memo) -----

  /** A calendar entry: the day and how it relates to today's UTC date. */
  datatype DateInfo = DateInfo(date: Date, isToday: bool, isPast: bool, isFuture: bool)

  /** Classifies `date` by comparing (year, month, day) with today's. */
  function Classify(date: Date, today: Date): (info: DateInfo)
    ensures info.date == date
    ensures info.isToday || info.isPast || info.isFuture
    ensures !(info.isToday && info.isPast) && !(info.isToday && info.isFuture) && !(info.isPast && info.isFuture)
  {
    DateInfo(date, date == today, Before(date, today), Before(today, date))
  }

  /** Exactly one of isToday, isPast and isFuture holds, and the order is that of day numbers. */
  lemma ClassesByDayNumber(date: Date, today: Date)
    requires Valid(date) && Valid(today)
    ensures var info := Classify(date, today);
      (info.isToday <==> DayNumber(date) == DayNumber(today))
      && (info.isPast <==> DayNumber(date) < DayNumber(today))
      && (info.isFuture <==> DayNumber(date) > DayNumber(today))
      && (if info.isToday then !info.isPast && !info.isFuture
          else if info.isPast then !info.isFuture else info.isFuture)
  {
    DayNumberOrder(date, today);
    DayNumberOrder(today, date);
  }

  // The loop bounds of the generator: 10 to 24 December 2025 (months counted from 0, as Date.UTC does).
  const StartYear: int := 2025
  const StartMonth: int := 11
  const StartDay: int := 10
  const EndYear: int := 2025
  const EndMonth: int := 11
  const EndDay: int := 24

  const FirstDay: Date := Date(2025, 12, 10)
  const LastDay: Date := Date(2025, 12, 24)

  /**
   * `new Date(Date.UTC(year, month + 1, 0)).getUTCDate()`: day 0 of the next
   * month is the last day of `month` (counted from 0); Date.UTC carries a month
   * outside 0 to 11 into the year.
   */
  function LastDayOfMonth(year: int, month: int): (n: int)
    ensures 28 <= n <= 31
    ensures 0 <= month < 12 ==> n == DaysInMonth(year, month + 1)
  {
    DaysInMonth(year + month / 12, month % 12 + 1)
  }

  /** The days the calendar shows, one per day from FirstDay. */
  function CalendarDays(): seq<Date> {
    seq(15, i requires 0 <= i < 15 => Date(2025, 12, 10 + i))
  }

  /** The calendar's entries for a given today. */
  function CalendarFor(today: Date): seq<DateInfo> {
    seq(15, i requires 0 <= i < 15 => Classify(CalendarDays()[i], today))
  }

  /** The calendar holds 15 valid days, FirstDay to LastDay, each the day after the one before. */
  lemma CalendarIsContiguous()
    ensures var days := CalendarDays();
      |days| == 15 && days[0] == FirstDay && days[14] == LastDay
      && (forall i :: 0 <= i < 15 ==> Valid(days[i]))
      && (forall i :: 0 <= i < 14 ==> days[i + 1] == Next(days[i]) && DayNumber(days[i + 1]) == DayNumber(days[i]) + 1)
  {
    var days := CalendarDays();
    forall i | 0 <= i < 14
      ensures days[i + 1] == Next(days[i]) && DayNumber(days[i + 1]) == DayNumber(days[i]) + 1
    {
      NextDayNumber(days[i]);
    }
  }

  /** The calendar is strictly increasing, and a valid date is in it exactly when FirstDay <= date <= LastDay. */
  lemma CalendarIsExactRange(d: Date)
    requires Valid(d)
    ensures forall i, j :: 0 <= i < j < 15 ==> DayNumber(CalendarDays()[i]) < DayNumber(CalendarDays()[j])
    ensures d in CalendarDays() <==> !Before(d, FirstDay) && !Before(LastDay, d)
  {
    var days := CalendarDays();
    forall i, j | 0 <= i < j < 15
      ensures DayNumber(days[i]) < DayNumber(days[j])
    {
      DayNumberOrder(days[i], days[j]);
    }
    if !Before(d, FirstDay) && !Before(LastDay, d) {
      assert d == days[d.day - 10];
    }
  }

  /**
   * The `dates` memo: three nested loops over years, months and days push one
   * classified entry per day. The campaign lies within one month, so the year
   * and month loops each run once.
   */
  method GenerateDates(today: Date) returns (dates: seq<DateInfo>)
    ensures |dates| == 15
    ensures forall i :: 0 <= i < 15 ==> dates[i] == Classify(CalendarDays()[i], today)
  {
    var dateArray: seq<DateInfo> := [];
    var year := StartYear;
    while year <= EndYear
      invariant StartYear <= year <= EndYear + 1
      invariant dateArray == if year == StartYear then [] else CalendarFor(today)
    {
      var monthStart := if year == StartYear then StartMonth else 0;
      var monthEnd := if year == EndYear then EndMonth else 11;
      var month := monthStart;
      while month <= monthEnd
        invariant monthStart <= month <= monthEnd + 1
        invariant dateArray == if month == StartMonth then [] else CalendarFor(today)
      {
        var dayStart := if year == StartYear && month == StartMonth then StartDay else 1;
        var dayEnd := if year == EndYear && month == EndMonth then EndDay else LastDayOfMonth(year, month);
        var day := dayStart;
        while day <= dayEnd
          invariant dayStart <= day <= dayEnd + 1
          invariant dateArray == CalendarFor(today)[..day - StartDay]
        {
          dateArray := dateArray + [Classify(Date(year, month + 1, day), today)];
          day := day + 1;
        }
        month := month + 1;
      }
      year := year + 1;
    }
    dates := dateArray;
  }

  // ----- visibleDates -----

  /** `dates.filter(d => !d.isPast)`. */
  function NotPast(dates: seq<DateInfo>): (kept: seq<DateInfo>)
    ensures |kept| <= |dates|
    ensures forall x :: x in kept <==> x in dates && !x.isPast
  {
    if dates == [] then []
    else
      assert forall x :: x in dates <==> x == dates[0] || x in dates[1..];
      (if dates[0].isPast then [] else [dates[0]]) + NotPast(dates[1..])
  }

  /** visibleDates: every date when showPast is set, otherwise the non-past ones. */
  function VisibleDates(dates: seq<DateInfo>, showPast: bool): (visible: seq<DateInfo>)
    ensures showPast ==> visible == dates
    ensures !showPast ==> visible == NotPast(dates)
    ensures |visible| <= |dates|
    ensures forall x :: x in visible <==> x in dates && (showPast || !x.isPast)
  {
    if showPast then dates else NotPast(dates)
  }

  /** The filter distributes over concatenation, so it keeps the original order. */
  lemma {:induction false} NotPastAppend(a: seq<DateInfo>, b: seq<DateInfo>)
    ensures NotPast(a + b) == NotPast(a) + NotPast(b)
  {
    if a == [] {
      assert a + b == b;
    } else {
      assert (a + b)[0] == a[0];
      assert (a + b)[1..] == a[1..] + b;
      NotPastAppend(a[1..], b);
    }
  }

  /** Entries none of which is past all stay; entries all of which are past all go. */
  lemma {:induction false} NotPastExtremes(dates: seq<DateInfo>)
    ensures (forall i :: 0 <= i < |dates| ==> !dates[i].isPast) ==> NotPast(dates) == dates
    ensures (forall i :: 0 <= i < |dates| ==> dates[i].isPast) ==> NotPast(dates) == []
  {
    if dates != [] {
      NotPastExtremes(dates[1..]);
      assert dates == [dates[0]] + dates[1..];
    }
  }

  /** On a campaign day the visible calendar starts at today's card and runs to the end, in order; with showPast it is the whole calendar. */
  lemma VisibleFromToday(k: nat)
    requires k < 15
    ensures var cal := CalendarFor(CalendarDays()[k]);
      VisibleDates(cal, true) == cal
      && VisibleDates(cal, false) == cal[k..]
      && VisibleDates(cal, false)[0].isToday
  {
    var cal := CalendarFor(CalendarDays()[k]);
    CampaignDayClasses(k);
    var before, after := cal[..k], cal[k..];
    assert forall i :: 0 <= i < |before| ==> before[i].isPast;
    assert forall i :: 0 <= i < |after| ==> !after[i].isPast;
    assert cal == before + after;
    NotPastAppend(before, after);
    NotPastExtremes(before);
    NotPastExtremes(after);
  }

  /** Against campaign day k, card i is past, today or future as i is below, equal to or above k. */
  lemma CampaignDayClasses(k: nat)
    requires k < 15
    ensures var cal := CalendarFor(CalendarDays()[k]);
      |cal| == 15
      && forall i :: 0 <= i < 15 ==>
           cal[i].isPast == (i < k) && cal[i].isToday == (i == k) && cal[i].isFuture == (i > k)
  {
  }

  // ----- handleCardClick and handleClose -----

  /** The secrets read from the `first`, `second` and `third` query parameters. */
  datatype SkipSecrets = SkipSecrets(first: Option<string>, second: Option<string>, third: Option<string>)

  /** JavaScript truthiness of a string that may be null. */
  predicate Truthy(s: Option<string>) {
    s.Some? && s.value != ""
  }

  /** `params.get(name) || null`: an empty value reads as absent. */
  function QueryValue(param: Option<string>): (v: Option<string>)
    ensures v.Some? <==> Truthy(param)
    ensures v.Some? ==> v == param
  {
    if Truthy(param) then param else None
  }

  /** shouldFetchAdventure: today's card, or any secret given. */
  predicate ShouldFetch(info: DateInfo, secrets: SkipSecrets) {
    info.isToday || Truthy(secrets.first) || Truthy(secrets.second) || Truthy(secrets.third)
  }

  /** What the click sends: the `searchDateTime` query value, X-Timezone and the secret headers that are set. */
  datatype FetchRequest = FetchRequest(
    searchDateTime: string,
    timeZone: string,
    skipInRange: Option<string>,      // from `first`
    skipNotAppeared: Option<string>,  // from `second`
    skipPassed: Option<string>)       // from `third`

  /** A secret header is sent only when the secret is truthy. */
  function HeaderValue(secret: Option<string>): Option<string> {
    if Truthy(secret) then secret else None
  }

  function RequestFor(date: Date, timeZone: string, secrets: SkipSecrets): (r: FetchRequest)
    requires Printable(date)
    ensures r.timeZone == timeZone
    ensures r.skipInRange.Some? <==> Truthy(secrets.first)
    ensures r.skipNotAppeared.Some? <==> Truthy(secrets.second)
    ensures r.skipPassed.Some? <==> Truthy(secrets.third)
    ensures r.skipInRange.Some? ==> r.skipInRange == secrets.first
    ensures r.skipNotAppeared.Some? ==> r.skipNotAppeared == secrets.second
    ensures r.skipPassed.Some? ==> r.skipPassed == secrets.third
  {
    FetchRequest(RequestDate(date) + "T00:00:00", timeZone,
      HeaderValue(secrets.first), HeaderValue(secrets.second), HeaderValue(secrets.third))
  }

  /** The parts of a fetch response the client looks at: `response.ok`, `data.data.message` and `data.errors`. */
  datatype FetchReply = FetchReply(ok: bool, message: Option<string>, errors: Option<seq<WireError>>)

  /** The App component's state, updated through its setters. */
  class App {
    var selectedDate: Option<Date>
    var adventure: Option<string>
    var loading: bool
    var error: Option<string>
    var skipSecrets: SkipSecrets
    var showPast: bool

    /** The initial state of every useState hook. */
    constructor ()
      ensures selectedDate == None && adventure == None && !loading && error == None
      ensures skipSecrets == SkipSecrets(None, None, None) && !showPast
    {
      selectedDate, adventure, loading, error := None, None, false, None;
      skipSecrets, showPast := SkipSecrets(None, None, None), false;
    }

    /** The mount effect: reads the three secrets and the showPast flag from the query string. */
    method ReadQuery(first: Option<string>, second: Option<string>, third: Option<string>, showPastParam: Option<string>)
      modifies this
      ensures skipSecrets == SkipSecrets(QueryValue(first), QueryValue(second), QueryValue(third))
      ensures showPast <==> showPastParam == Some("true")
      ensures selectedDate == old(selectedDate) && adventure == old(adventure)
      ensures loading == old(loading) && error == old(error)
    {
      skipSecrets := SkipSecrets(QueryValue(first), QueryValue(second), QueryValue(third));
      showPast := showPastParam == Some("true");
    }

    /**
     * handleCardClick up to the fetch: clicking the selected card closes it;
     * any other card becomes selected, and the request to send (if any) is
     * returned. The fetch itself is the caller's: its outcome arrives through
     * ReceiveReply or FetchFailed.
     */
    method HandleCardClick(info: DateInfo, browserZone: string) returns (request: Option<FetchRequest>)
      requires Printable(info.date)
      modifies this
      ensures skipSecrets == old(skipSecrets) && showPast == old(showPast)
      ensures old(selectedDate) == Some(info.date) ==>
        selectedDate == None && adventure == None && error == None
        && loading == old(loading) && request == None
      ensures old(selectedDate) != Some(info.date) ==>
        selectedDate == Some(info.date) && error == None
        && (request.Some? <==> ShouldFetch(info, skipSecrets))
        && (request.Some? ==>
              request.value == RequestFor(info.date, browserZone, skipSecrets)
              && loading && adventure == old(adventure))
        && (request.None? ==> adventure == None && loading == old(loading))
    {
      if selectedDate == Some(info.date) {
        selectedDate, adventure, error := None, None, None;
        return None;
      }
      selectedDate := Some(info.date);
      error := None;
      if ShouldFetch(info, skipSecrets) {
        loading := true;
        request := Some(RequestFor(info.date, browserZone, skipSecrets));
      } else {
        adventure := None;
        request := None;
      }
    }

    /** The fetch answered: show the message of a successful reply, otherwise the text for its first error; stop loading. */
    method ReceiveReply(reply: FetchReply)
      modifies this
      ensures !loading
      ensures reply.ok && reply.message.Some? ==> adventure == reply.message && error == old(error)
      ensures !(reply.ok && reply.message.Some?) ==>
        error == Some(ErrorMessage(FirstError(reply.errors))) && adventure == old(adventure)
      ensures selectedDate == old(selectedDate) && skipSecrets == old(skipSecrets) && showPast == old(showPast)
    {
      if reply.ok && reply.message.Some? {
        adventure := reply.message;
      } else {
        error := Some(ErrorMessage(FirstError(reply.errors)));
      }
      loading := false;
    }

    /** The fetch or the JSON parsing threw: the generic unexpected-error text; stop loading. */
    method FetchFailed()
      modifies this
      ensures error == Some(UnexpectedText) && !loading
      ensures selectedDate == old(selectedDate) && adventure == old(adventure)
      ensures skipSecrets == old(skipSecrets) && showPast == old(showPast)
    {
      error := Some(UnexpectedText);
      loading := false;
    }

    /** handleClose: deselects the card and clears its message and error. */
    method HandleClose()
      modifies this
      ensures selectedDate == None && adventure == None && error == None
      ensures loading == old(loading) && skipSecrets == old(skipSecrets) && showPast == old(showPast)
    {
      selectedDate, adventure, error := None, None, None;
    }
  }
}
