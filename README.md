# Adventy: the daily-adventure release gate and its web client

Adventy is an advent calendar for December 2025. Each campaign day has one
"adventure" message, and the API releases it only on that day.

- The ASP.NET API has one action, `GET /api/Adventures` (AdventuresController.GetAdventure). It checks the requested date in a fixed order and answers in one of three ways:
  - 200 with `{ data: { message } }`;
  - 400 with one error;
  - 500 with one error.
- Every answer is a response envelope with an optional `data` and an optional `errors` list.
- The React client (App.jsx) shows a card for each of 10 to 24 December 2025. It marks each card as past, today or future by its UTC date, and hides past cards unless `showPast=true` is in the query string.
- Clicking a card fetches the day's message when the card is today's, or when a skip-secret was given in the query string (`first`, `second`, `third`).
- The client turns each API error into a Russian text, by the error's numeric type and code.

The Dafny modules:

| module | file | what |
|---|---|---|
| `Wrappers` | wrappers.dfy | `Option` |
| `Calendar` | calendar.dfy | proleptic Gregorian dates, day numbers from 1970-01-01, the lexicographic order and its agreement with time |
| `DateText` | datetext.dfy | `${year}-${MM}-${DD}` (client) and `yyyy-MM-dd` (API), and reading that text back |
| `Responses` | responses.dfy | `ErrorType`, `ErrorCode`, `Error`, `BaseResponse`, `Response` and `Response<TData>` |
| `Adventures` | adventures.dfy | the gate `GetAdventure`, with the clock, host offset, timezone table and message provider as parameters |
| `ClientApp` | clientapp.dfy | `getErrorMessage`, the `dates` generator, `visibleDates`, and the `App` state (`class App`) with its click, reply and close handlers |
| `Release` | release.dfy | the client and the API together: a card's request, what it binds to, the gate's answer and the text shown |

Behaviour of the code worth knowing:

- **Order of the checks.** The timezone checks run after the window check, not before it. Without the in-range secret, a request outside the window fails with `InvalidSearchDate` whatever its `X-Timezone` says.
- **Passed / not-yet-appeared.** These are decided by comparing instants, not local calendar dates.
  - "Today" is `DateTimeOffset.UtcNow.Date`: the UTC date at midnight. Its implicit conversion to `DateTimeOffset` applies the host's local offset.
  - `TimeZoneInfo.ConvertTime` into the user's zone keeps that instant.
  - So the user's zone only has to exist (`ZoneOnlyValidates`), and a host ahead of UTC refuses today's card as not yet appeared (`HostOffsetShiftsToday`).
- **A day without a message.** It answers 500 with `InvalidRequestParameters` / `SearchDateHasNotAppeared`, not `ResourceIsNotConfigured`. No path of the action produces `InternalServerError` or `ResourceIsNotConfigured`.
- **Secrets** are compared with `StringComparison.InvariantCulture`. The model treats this as exact equality.
- **Enums on the wire.** The API configures no string-enum converter, so `type` and `code` travel as numbers. This is what the client's table expects.

## Model

| member | source | states |
|---|---|---|
| `Calendar.DayNumberOrder` | src/Api/ClientApp/src/App.jsx:117-127 | for valid dates, the component-wise comparison (year, then month, then day) is "strictly earlier", and component equality is day-number equality |
| `Calendar.NextDayNumber` | src/Api/ClientApp/src/App.jsx:104-106 | the day after a valid date is valid and its day number is one more |
| `Calendar.DaysInMonth` | src/Api/ClientApp/src/App.jsx:101-102 | every month of the proleptic Gregorian calendar has 28 to 31 days |
| `DateText.Decimal` | src/Api/ClientApp/src/App.jsx:182-185 | the decimal numeral is non-empty, all digits, starts with `0` only for the number 0 (no leading zero), has one digit exactly below 10, and ends in the last digit of the number |
| `DateText.DecimalRoundTrip` | src/Api/ClientApp/src/App.jsx:182-185 | reading a number's numeral gives the number back |
| `DateText.TwoDigits` | src/Api/ClientApp/src/App.jsx:183-184 | `String(n).padStart(2, '0')` of a month or day is its tens digit followed by its units digit |
| `DateText.PadStart` | src/Api/ClientApp/src/App.jsx:183-184 | padding reaches the width, keeps the text as a suffix and fills only with the pad character |
| `DateText.RequestDate` | src/Api/ClientApp/src/App.jsx:182-185 | the `${year}-${month}-${day}` text; its layout is stated by RequestDateShape and its inverse by RequestDateRoundTrip |
| `DateText.RequestDateShape` | src/Api/ClientApp/src/App.jsx:185 | the request date is the year's numeral, `-`, two month digits, `-`, two day digits |
| `DateText.RequestDateRoundTrip` | src/Api/ClientApp/src/App.jsx:182-185 | the request date of every date with two-digit month and day parses back to that date |
| `DateText.FourDigitYearsAgree` | src/Api/Controllers/AdventuresController.cs:79 | for years 1000 and later the client's date text and the API's `yyyy-MM-dd` text are the same |
| `DateText.DotNetDate` | src/Api/Controllers/AdventuresController.cs:79 | `ToString("yyyy-MM-dd")` in the Gregorian calendar; FourDigitYearsAgree states it is the client's text for years from 1000 on |
| `Responses.TypeNumber` | src/Api/ClientApp/src/App.jsx:15-33 | InvalidRequestParameters travels as 0 and InternalServerError as 1 (the numbers the client reads for them), and no other type has these numbers |
| `Responses.CodeNumber` | src/Api/Contracts/Responses/ErrorCode.cs:3-10 | every error code travels as a number from 0 to 4 |
| `Responses.CodeNumberRoundTrip` | src/Api/Contracts/Responses/ErrorCode.cs:3-10 | the numbering of error codes is one-to-one: number to code inverts code to number |
| `Responses.CodeOfNumber` | src/Api/Contracts/Responses/ErrorCode.cs:3-10 | a number names an error code exactly when it is 0 to 4 |
| `Responses.WithoutNulls` | src/Api/Contracts/Responses/BaseResponse.cs:22 | dropping the null entries keeps exactly the non-null errors, never lengthens the list and drops nothing when there is no null |
| `Responses.WithoutNullsAppend` | src/Api/Contracts/Responses/BaseResponse.cs:22 | dropping nulls distributes over concatenation, so the errors keep their order |
| `Responses.WithoutNullsKeepsErrors` | src/Api/Contracts/Responses/BaseResponse.cs:22 | a list without nulls comes through unchanged |
| `Responses.NoErrors` | src/Api/Contracts/Responses/BaseResponse.cs:11-13 | the parameterless constructor leaves `errors` null |
| `Responses.SingleError` | src/Api/Contracts/Responses/BaseResponse.cs:15-18 | the single-error constructor makes a list of exactly that error |
| `Responses.CollectedErrors` | src/Api/Contracts/Responses/BaseResponse.cs:20-23 | the collection constructor always sets a list: empty for a null collection, otherwise exactly its non-null errors, in their order and with their repeats (the filter WithoutNulls, whose order WithoutNullsAppend proves) |
| `Responses.SingleErrorIsCollection` | src/Api/Contracts/Responses/BaseResponse.cs:15-23 | the single-error constructor agrees with the collection constructor on a one-entry collection |
| `Responses.EmptyResponse` | src/Api/Contracts/Responses/Response.cs:8-10 | `new Response()` carries no errors |
| `Responses.ErrorResponse` | src/Api/Contracts/Responses/Response.cs:12-15 | `new Response(error)` carries exactly that error |
| `Responses.ErrorsResponse` | src/Api/Contracts/Responses/Response.cs:17-20 | `new Response(errors)` carries exactly the list the base collection constructor builds, so it holds exactly the non-null given errors in order |
| `Responses.DataOf` | src/Api/Contracts/Responses/Response.cs:29-32 | `new Response<TData>(data)` carries the data and no errors |
| `Responses.DataError` | src/Api/Contracts/Responses/Response.cs:33-36 | `new Response<TData>(error)` carries no data and exactly that error |
| `Responses.DataErrors` | src/Api/Contracts/Responses/Response.cs:38-41 | `new Response<TData>(errors)` carries no data and exactly the list the base collection constructor builds |
| `Responses.EnvelopesAgree` | src/Api/Contracts/Responses/Response.cs:12-41 | the generic and the plain envelope carry the same errors for the same constructor argument |
| `Adventures.GetAdventure` | src/Api/Controllers/AdventuresController.cs:29-111 | a 200 carries data and no errors; every other answer carries exactly one error, of type InvalidRequestParameters and never ResourceIsNotConfigured |
| `Adventures.AsUtc` | src/Api/Controllers/AdventuresController.cs:36 | the query value read as UTC is an instant within its own UTC day |
| `Adventures.Unlocks` | src/Api/Controllers/AdventuresController.cs:38-40 | a rule is skipped only when its header is present and equal to the secret; stated by WrongSecretIsNoSecret and SecretsAreIndependent |
| `Adventures.Today` | src/Api/Controllers/AdventuresController.cs:74-75 | the UTC date at midnight shifted by the host's offset; its effect is stated by HostOffsetShiftsToday and CardInstant |
| `Adventures.WindowIsLateDecember` | src/Api/Controllers/AdventuresController.cs:17-18 | an instant is in the window exactly when its UTC date is 10 to 31 December 2025 |
| `Adventures.OutOfWindowFails` | src/Api/Controllers/AdventuresController.cs:42-49 | without the in-range secret, an instant outside the window gets 400 / InvalidSearchDate, whatever the other headers |
| `Adventures.BadZoneFails` | src/Api/Controllers/AdventuresController.cs:51-72 | after the window check, a missing, blank or unknown timezone gets 400 / InvalidUserTimeZone, and no secret avoids it |
| `Adventures.PassedFails` | src/Api/Controllers/AdventuresController.cs:74-84 | an instant before today, without the passed secret, gets 400 / SearchDatePassed |
| `Adventures.NotAppearedFails` | src/Api/Controllers/AdventuresController.cs:86-94 | an instant after today, without the not-appeared secret, gets 400 / SearchDateHasNotAppeared |
| `Adventures.BlankMessageFails` | src/Api/Controllers/AdventuresController.cs:96-105 | once every check passes, a missing or blank message gives 500 with (InvalidRequestParameters, SearchDateHasNotAppeared) |
| `Adventures.MessageReleased` | src/Api/Controllers/AdventuresController.cs:96-110 | once every check passes, any other message gives 200 carrying that message verbatim and no errors |
| `Adventures.ReleaseWithoutSecrets` | src/Api/Controllers/AdventuresController.cs:29-111 | with no secret headers the answer is 200 exactly when the instant is in the window, the zone is accepted, the instant is today's midnight and a message exists |
| `Adventures.WrongSecretIsNoSecret` | src/Api/Controllers/AdventuresController.cs:38-40 | a secret header that does not match its constant exactly changes nothing |
| `Adventures.SecretsAreIndependent` | src/Api/Controllers/AdventuresController.cs:38-94 | each secret only disables its own check: where that check would pass anyway, its header has no effect |
| `Adventures.ZoneOnlyValidates` | src/Api/Controllers/AdventuresController.cs:59-77 | the user's timezone only has to exist: any two tables that accept it give the same answer |
| `ClientApp.FirstError` | src/Api/ClientApp/src/App.jsx:213 | `data.errors?.[0]` is present exactly when the list is present and not empty, and is its first entry |
| `ClientApp.ErrorMessage` | src/Api/ClientApp/src/App.jsx:7-45 | getErrorMessage is total; its table is stated by RequestErrorMessages (type 0), ServerErrorMessages (type 1) and UnknownErrorMessages (no error, other types), and WireMessagesMatch checks it against the error enums |
| `ClientApp.Classify` | src/Api/ClientApp/src/App.jsx:117-127 | the entry keeps its date, and exactly one of isToday, isPast and isFuture holds, for any two dates |
| `ClientApp.RequestErrorMessages` | src/Api/ClientApp/src/App.jsx:16-31 | for type 0, codes 0 to 4 get their own five texts and every other code the generic invalid-request text; the six texts are pairwise different |
| `ClientApp.ServerErrorMessages` | src/Api/ClientApp/src/App.jsx:34-41 | for type 1, code 4 gets the not-configured text (the same as type 0 code 4) and every other code the internal-error text |
| `ClientApp.UnknownErrorMessages` | src/Api/ClientApp/src/App.jsx:8-10 | no error at all, or a type other than 0 and 1, gets the unexpected-error text |
| `ClientApp.ClassesByDayNumber` | src/Api/ClientApp/src/App.jsx:117-127 | exactly one of isToday, isPast and isFuture holds, and each says the card's day number is equal to, below or above today's |
| `ClientApp.LastDayOfMonth` | src/Api/ClientApp/src/App.jsx:101-102 | day 0 of the next month is the last day of the month (28 to 31), in the proleptic Gregorian calendar; the generator only passes 2025 |
| `ClientApp.CalendarIsContiguous` | src/Api/ClientApp/src/App.jsx:76-82 | the calendar is the 15 valid days from 10 to 24 December 2025, each the day after the one before |
| `ClientApp.CalendarIsExactRange` | src/Api/ClientApp/src/App.jsx:72-140 | the calendar's day numbers strictly increase, and a valid date is on it exactly when it lies between 10 and 24 December 2025 |
| `ClientApp.GenerateDates` | src/Api/ClientApp/src/App.jsx:74-140 | the nested year, month and day loops produce the 15 calendar days in order, each classified against today |
| `ClientApp.VisibleDates` | src/Api/ClientApp/src/App.jsx:143-150 | with showPast the list is unchanged; otherwise it is the NotPast filter of the list: exactly the non-past entries, never longer, in their original order with their repeats (NotPastAppend) |
| `ClientApp.NotPast` | src/Api/ClientApp/src/App.jsx:149 | the filter keeps exactly the entries that are not past and never lengthens the list |
| `ClientApp.NotPastAppend` | src/Api/ClientApp/src/App.jsx:149 | the filter distributes over concatenation, so the order of the cards is kept |
| `ClientApp.NotPastExtremes` | src/Api/ClientApp/src/App.jsx:149 | a list with no past entry is kept whole, and a list of past entries is emptied |
| `ClientApp.VisibleFromToday` | src/Api/ClientApp/src/App.jsx:143-150 | on a campaign day the visible cards are today's card and every later one, in order, beginning with today's; with showPast they are all cards |
| `ClientApp.QueryValue` | src/Api/ClientApp/src/App.jsx:63-67 | `params.get(x) \|\| null` is present exactly when the parameter is present and non-empty, and then it is that value; an empty value becomes null |
| `ClientApp.ShouldFetch` | src/Api/ClientApp/src/App.jsx:172-175 | the fetch decision: today's card or a truthy secret; its effect is stated by App.HandleCardClick |
| `ClientApp.RequestFor` | src/Api/ClientApp/src/App.jsx:180-203 | the request carries the browser zone, and each secret header is present exactly when its secret is truthy, with that secret's value; its date is stated by Release.RequestBindsToCardDate |
| `ClientApp.App.constructor` | src/Api/ClientApp/src/App.jsx:48-57 | nothing is selected, loading or shown, no secrets are known and past cards are hidden |
| `ClientApp.App.ReadQuery` | src/Api/ClientApp/src/App.jsx:61-70 | the secrets come from `first`, `second` and `third` (empty read as absent), showPast is set only by the exact text `true`, and nothing else changes |
| `ClientApp.App.HandleCardClick` | src/Api/ClientApp/src/App.jsx:152-224 | clicking the open card closes it; otherwise the card opens and its error clears; a request goes out exactly when the card is today's or a secret is set; it carries the card's date at midnight, the browser zone and the truthy secrets, and loading starts; with no request the message is cleared |
| `ClientApp.App.ReceiveReply` | src/Api/ClientApp/src/App.jsx:207-219 | a successful reply with data shows its message, anything else shows the text for its first error; loading stops and the selection is kept |
| `ClientApp.App.FetchFailed` | src/Api/ClientApp/src/App.jsx:216-220 | a failed fetch shows the unexpected-error text and loading stops |
| `ClientApp.App.HandleClose` | src/Api/ClientApp/src/App.jsx:226-230 | the card is deselected and its message and error cleared; nothing else changes |
| `Release.BindSearchDateTime` | src/Api/Controllers/AdventuresController.cs:30 | the query value binds only to a valid date and time |
| `Release.RequestBindsToCardDate` | src/Api/ClientApp/src/App.jsx:182-203 | the `searchDateTime` a card sends binds on the server to midnight of that card's date |
| `Release.SecretHeaders` | src/Api/ClientApp/src/App.jsx:193-201 | a header unlocks its check exactly when the matching query secret (`first` for in-range, `second` for not-appeared, `third` for passed) is its constant |
| `Release.CardInstant` | src/Api/Controllers/AdventuresController.cs:36-86 | on a UTC host whose clock shows the client's date, midnight of every card lies in the window, and past, today and future order it against the server's today |
| `Release.AnswerByOrder` | src/Api/Controllers/AdventuresController.cs:74-110 | a date in the window whose class matches the instant order gets the answer CardAnswer describes |
| `Release.CardOutcome` | src/Api/ClientApp/src/App.jsx:152-224 | every calendar card clicked with an accepted zone: today's gets the message or the missing-message 500, a past one without the `third` secret gets SearchDatePassed, a future one without the `second` secret gets SearchDateHasNotAppeared; none hits the window check |
| `Release.HostOffsetShiftsToday` | src/Api/Controllers/AdventuresController.cs:74-94 | without secrets, today's midnight is refused as not yet appeared on a host ahead of UTC and as passed on a host behind it |
| `Release.ToWire` | src/Api/Contracts/Responses/Error.cs:5-16 | an error's numbers on the wire name its code again, and its type number is 0 exactly for InvalidRequestParameters |
| `Release.WireMessagesMatch` | src/Api/ClientApp/src/App.jsx:7-45 | the client's table on numbers shows every server error with the text its type and code deserve, and never the unexpected-error text |
| `Release.ReplyOf` | src/Api/ClientApp/src/App.jsx:207-209 | `response.ok` holds exactly when the status is in 200 to 299, which for the gate means exactly its 200 answer |
| `Release.ShownText` | src/Api/ClientApp/src/App.jsx:209-215 | a 200 shows the day's message, any failure the text for its error code, and the missing-message 500 reads as "wait, the next adventure is coming soon" |

## Left out

- Time has a granularity of one second. .NET ticks (100 ns) and the JavaScript millisecond clock are not modelled. The requests the client sends are whole midnights.
- The clock (`DateTimeOffset.UtcNow` and the browser's `new Date()`), the host's local offset, the timezone table, the browser's timezone and `DailyMessageProvider` are parameters. The provider's message table is not part of this model.
- `TimeZoneInfo.FindSystemTimeZoneById` throwing anything other than TimeZoneNotFoundException (for instance InvalidTimeZoneException) is not modelled. Neither are the daylight-saving rules of `ConvertTime`, which keeps the instant and only changes the offset.
- Release.BindSearchDateTime: only the `<date>THH:mm:ss` form the client sends is modelled. The other formats the ASP.NET binder accepts, and its 400 for an unparsable value, are not.
- Adventures.GetAdventure: the query value is taken as an already valid DateTime of unspecified kind (a year up to 9999).
  - How the binder treats a value with an offset or `Z` is not modelled.
  - The requires names this.
- ClientApp.LastDayOfMonth: Date.UTC reads years 0 to 99 as 1900 to 1999 and gives NaN far out of its range; neither is modelled (the function is only called with 2025).
- DateText.DotNetDate: `ToString("yyyy-MM-dd")` formats with the current culture's calendar; the model assumes a Gregorian-calendar culture.
- Release.SecretHeaders: header values lose their surrounding spaces, tabs and line breaks in transit (fetch and the server both trim them); the model sends them unchanged, so a whitespace-padded query secret that unlocks a check in the program unlocks nothing in the model.
- Secrets are compared by exact equality. `StringComparison.InvariantCulture` also ignores zero-width characters, which is not modelled.
- The JSON serialisation, `fetch` and `response.json()` are not modelled. A reply is given as its `ok` flag, message and numeric errors (`FetchReply`), and a throwing fetch as `FetchFailed`. Non-numeric `type`/`code` values in a reply are not modelled.
- ClientApp.App.HandleCardClick: the `await` splits the click into the click itself and a later `ReceiveReply` or `FetchFailed`. Interleaving of several fetches in flight is not modelled.
- The calendar's days are dates, not JavaScript `Date` objects. The `dates` memo is computed once at mount, and later midnights do not reclassify the cards; the model classifies against the `today` it is given.
- getAdventureTitle (random phrases), the popups and the rendering in App.jsx, AdventureCard.jsx and DateCard.jsx are presentation and are not modelled.
- Program.cs (hosting, the SPA proxy) and vite.config.js are configuration and are not modelled. Domain/Adventure.cs and Contracts/Adventures/Adventure.cs are not used by the action and are not part of this model.
