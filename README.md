# dp2gc import and sync core, in Dafny

dp2gc copies a student's class timetable from the DHU university portal
("デジキャン") into a Google Calendar. This project models the deterministic
core of that pipeline once the network is taken out:

- **Portal client** (`src/pages/api/classEvents.ts`), in modules `PortalSession`
  and `PortalFetch`. It covers:
  - the login form and the session cookie;
  - the `SessionData` record, filled from the page returned after login;
  - the per-month AJAX form and its query window;
  - picking the `events` fragment out of the partial-response envelope;
  - the one-month fetch with its three error messages;
  - the API route, which refuses non-GET requests and missing parameters, then
    concatenates month results and stops at the first failure.
- **Scraping back end** (`back/main.py`), in module `TermMonths`. It covers the
  term whitelist, the fixed date windows, the month list and the walk with year
  rollover. Each month is scraped in turn, and a failed login becomes a 401
  object.
- **Import form** (`front/components/ImportForm.tsx`), in module `ImportForm`.
  It covers:
  - the required-field check and its four messages;
  - the lecture (`eventJugyo`) filter and the millisecond range filter;
  - title-plus-instant de-duplication against events already in the calendar;
  - the paginated listing of those events;
  - the sequential post loop with its progress counter.
- **Shared form helpers** (`front/libs/importFormCommons.ts`), in module
  `ImportFormCommons`. It covers the whole-second range filter, the selectable
  years and the single error message of the class-event fetch.
- **Bulk-delete button** (`front/components/ImportModules/AllDeleteButton.tsx`),
  in module `AllDeleteButton`. It covers:
  - the planning pass: per-calendar filtering on the `#created_by_dp2gc` marker,
    the count, and one delete URL per kept event;
  - the paced delete loop;
  - the button's status.

Supporting modules:

- `Base`: `Option` and `Result`.
- `Seqs`: filter, subsequence and concatenation facts.
- `FormParams`: `URLSearchParams` as an ordered pair list.
- `CivilTime`: Gregorian day counting.
- `Decimal`: integer-to-text rendering.
- `CalendarApi`: the calendar provider's event record.

Every reply from the network is an input to the model:

- the login response;
- `portal(n)`, the portal's reply to the n-th month request;
- the scraper `scrape(user, password, year, month)`;
- `pages`, the listing replies in order;
- `replies(i)`, the reply to the i-th post;
- the calendar list and `eventsFor(i)` for the bulk delete.

The following also come in as parameters:

- date parsing (`instantOf`, which gives epoch milliseconds);
- the end-time helper `endOf`;
- the JSON decoder and the `ClassEvent` constructor;
- the current year, today's date text and the UTC offset;
- the quarter bounds.

The form's login session is one of three states: none, one without a user, and
one with a user. Code that works step by step is modelled
as methods with loops, each proved against a function on the inputs:

- `getSessionData`
- `generateBody` and `generateLoginBody`
- `parseClassEvents`
- the handler loop
- `get_month_range` and the month walk
- `existsStateEmpty` and `isEventDuplicated`
- `getAlreadyPostedEvents` and the post loop
- the three bulk-delete planning loops and the delete loop

The React components become classes whose fields are the component's state
(`ImportForm.Form`, `AllDeleteButton.Button`). The module-level
`delete_event_url_list` becomes the field `deleteUrlList`.

The model follows the code as written. In particular:

- The scraping endpoint (`TermMonths.GetDhuEventList`) walks the months of
  `get_month_range` as written, so a term's end month is skipped unless the
  term wraps. The evidently intended endpoint, which includes the end month, is
  the separate member `TermMonths.GetDhuEventListCorrected` (see "## Findings").
- Bulk deletes are sent without awaiting them, and the counter advances whether
  or not they succeed.
- A failed listing of existing events leaves every event to be posted.
- The range filters are strict on both ends.

## Model

| member | source | states |
|---|---|---|
| PortalSession.ExtractJSessionId | src/pages/api/classEvents.ts:254-263 | A missing header gives "". Otherwise the result is "" exactly when no position holds `JSESSIONID=` followed by a character other than `;`. When there is such a position, the result is the whole `;`-free run after the leftmost one. |
| PortalSession.FirstMatch | src/pages/api/classEvents.ts:256-258 | The regex search returns the leftmost matching position at or after the start, with no match before it; none means no position matches. |
| PortalSession.ExtractLeadingSessionId | src/pages/api/classEvents.ts:254-263 | A header beginning `JSESSIONID=id`, followed by `;` or by nothing, yields exactly `id`. |
| PortalSession.EmptyValueIsSkipped | src/pages/api/classEvents.ts:256-260 | An occurrence with an empty value (`JSESSIONID=;`) is not a match, and the value of the next occurrence is returned. |
| PortalSession.GenerateCookieInjective | src/pages/api/classEvents.ts:207-209 | Equal cookie headers carry equal session ids: the id can be read back from the header. |
| PortalSession.LastValue | src/pages/api/classEvents.ts:223-228 | With no input of that name the value is "". Otherwise it is the value of an input with that name that no later input shares. |
| PortalSession.SessionData.constructor | src/pages/api/classEvents.ts:15-26 | All four session fields start as "". |
| PortalSession.GetSessionData | src/pages/api/classEvents.ts:216-231 | It fails exactly when the login status is not 200, and then with "Login failed". Otherwise it returns a new record: the session id comes from the `Set-Cookie` header, and each token is the value of the last `<input>` bearing its name ("" when there is none). |
| PortalSession.GenerateLoginBody | src/pages/api/classEvents.ts:244-252 | The body is the five login pairs, in order. |
| PortalSession.LoginFormReadsBack | src/pages/api/classEvents.ts:244-248 | The login form has five pairs, and reading it gives back the username and the password. |
| PortalSession.LoginFormFixedFields | src/pages/api/classEvents.ts:249-250 | The login button field is empty, and the view state is "stateless". |
| PortalFetch.QueryWindowIsTheMonth | src/pages/api/classEvents.ts:177-184 | The end of the window is local midnight of the month's last day. The window spans (days in month − 1) days. Start < end, and both are whole seconds × 1000. |
| CivilTime.NextMonthFirstDay | src/pages/api/classEvents.ts:183 | One month after the 1st is the day that lies the month's length later (the year rolls over after December). |
| Decimal.IntStringRoundTrip | src/pages/api/classEvents.ts:179-183 | The decimal text written for a window bound reads back as the same integer, sign included. |
| PortalFetch.GenerateBody | src/pages/api/classEvents.ts:170-205 | The body is the month's form for the given year: the AJAX header, the window, the session's tokens, today's date, the month view, nine empty memos and the session's view state. |
| PortalFetch.AppendWindow | src/pages/api/classEvents.ts:177-184 | Appends the start and end fields holding the window in decimal. |
| PortalFetch.QueryFormCarriesWindow | src/pages/api/classEvents.ts:177-184 | Reading the form gives the window's start and end as decimal text. |
| PortalFetch.QueryFormCarriesTokens | src/pages/api/classEvents.ts:186-187 | Reading the form gives the session's `rx-token` and `rx-loginKey`. |
| PortalFetch.QueryFormCarriesViewState | src/pages/api/classEvents.ts:203 | Reading the form gives the session's view state. |
| PortalFetch.FirstEventsFragment | src/pages/api/classEvents.ts:130-132 | There is none exactly when no fragment mentions `events`. Otherwise the result is the first fragment that does. |
| PortalFetch.ParseOutcomeOneToOne | src/pages/api/classEvents.ts:127-143 | Parsing succeeds exactly when the envelope is a list whose first `events` fragment decodes to a record list. The events then match the records one to one, in order. |
| PortalFetch.ParseClassEvents | src/pages/api/classEvents.ts:127-144 | The push loop yields the parse outcome: one event per decoded record, in order, or the parse error. |
| PortalFetch.OneMonthOutcomes | src/pages/api/classEvents.ts:71-88 | A month outside 1..12 gives "Invalid month". A rejected request gives the rejection's own message. A non-ok reply gives "Failed to fetch…". Any parse failure gives "…Maybe your login is failing.". The fetch succeeds exactly when none of these applies. |
| PortalFetch.FetchClassEventsOneMonth | src/pages/api/classEvents.ts:67-91 | The result is the one-month outcome. A request goes out exactly for a valid month, and it is the month's form for the current year, carrying the session's tokens. |
| PortalFetch.PortalFetchRejectsInvalidMonths | src/pages/api/classEvents.ts:71 | Whatever the portal says, an invalid month never yields events. |
| PortalFetch.MonthLoopStopsAtFailure | src/pages/api/classEvents.ts:55-62 | Once a month has failed, the later months change neither the result nor the requests sent. |
| PortalFetch.MonthLoopSuccess | src/pages/api/classEvents.ts:54-64 | A successful run requested every month, each month succeeded, and the events are every month's events concatenated in list order. |
| PortalFetch.MonthLoopFailure | src/pages/api/classEvents.ts:55-62 | A failed run has a first failing month. Every earlier month succeeded, the run reports that month's message, and nothing after it was requested. |
| PortalFetch.FetchMonths | src/pages/api/classEvents.ts:54-63 | The loop's result and the months it requested equal the month-loop specification. |
| PortalFetch.UrlToQueryParameter | src/pages/api/classEvents.ts:93-110 | It succeeds exactly when all four parameters are single strings, and then returns them. Otherwise the error is the message naming the falsy ones. |
| PortalFetch.MissingMessageQuirks | src/pages/api/classEvents.ts:96-108 | A repeated parameter is rejected with a message that names no parameter. |
| PortalFetch.EmptyParameterNamed | src/pages/api/classEvents.ts:103-107 | An empty parameter and an absent one are both named in the message. |
| PortalFetch.Handler | src/pages/api/classEvents.ts:38-65 | A non-GET request gets 405 and a missing parameter gets 400, in both cases with no login and no portal request. Otherwise the login form carrying the query's username and password is posted. A refused login escapes as "Login failed". Otherwise the response is 200 with the month loop's events, or 500 with the first failing month's message. |
| TermMonths.GetMonthRange | back/main.py:26-36 | The loop-built list equals `get_month_range` as written. |
| TermMonths.AppendWrapped | back/main.py:30-36 | The two append loops build `start..12` followed by `1..end`. |
| TermMonths.MonthRangeExcludesEnd | back/main.py:28-29 | When start < end, the list is start, start+1, …, end−1: it has end − start months and leaves out end. |
| TermMonths.MonthRangeWrapIncludesEnd | back/main.py:30-36 | When start ≥ end, the list is start..12 then 1..end: it has 13 − start + end months and ends with end. |
| TermMonths.MonthRangeShape | back/main.py:26-36 | For months in 1..12, every listed month is in 1..12, and the list climbs by one except at a single wrap point. |
| TermMonths.GetMonthRangeInclusive | back/main.py:26-36 | The corrected month list, built by the same loops: start to end inclusive, wrapping past December. |
| TermMonths.MonthRangeInclusiveIndex | back/main.py:26-36 | The corrected list has 1 to 12 months, and its i-th month is i months after start. |
| TermMonths.Walk | back/main.py:53-63 | The walk keeps each month. `pre_month` ends at the last month and the year ends at the last target's year. |
| TermMonths.WalkPrefix | back/main.py:56-63 | Walking a prefix of the list gives the matching prefix of the targets. |
| TermMonths.InclusiveWalkFollowsCalendar | back/main.py:54-58 | On the corrected list, the i-th target is the calendar month i months after the start. The year rises by at most one, and the last target is the end month (in the next year exactly when the list wraps). |
| TermMonths.AsWrittenWalkStopsShort | back/main.py:28-29 | When start < end, the walk as written ends at month end − 1 and never visits end. |
| TermMonths.AcceptsExactlyTheTerms | back/main.py:83-89 | Exactly the six term identifiers are accepted. |
| TermMonths.GetDateStartEnd | back/main.py:72-80 | A window exists exactly for an accepted identifier. Both of its dates are valid, and the start comes before the end. |
| TermMonths.SharedAndCrossingWindows | back/main.py:72-80 | `1q` shares its window with `1q_and_2q`, and `3q` with `3q_and_4q`. Only `4q` ends in the next year. |
| TermMonths.ThirdQuarterMissesNovember | back/main.py:77-78 | The `3q` window ends in November, yet the list as written is [9, 10]. The corrected list is [9, 10, 11]. |
| TermMonths.GatherStopsAtFailure | back/main.py:59-66 | After a failed login, further targets change neither the result nor the call count. |
| TermMonths.GatherSuccess | back/main.py:53-63 | A successful run called the scraper for every target, each call succeeded, and the events are concatenated in target order. |
| TermMonths.GatherFailure | back/main.py:59-66 | A failed run has a first failing target, and that target's login-failure text is what the run reports. |
| TermMonths.WrittenTargetsDropEndMonth | back/main.py:28-29 | As written, every term but `4q` scrapes the corrected months minus the last, and its window's end month is never scraped. For `4q` the written and corrected months agree. |
| TermMonths.TermTargetsCoverWindow | back/main.py:49-58 | Corrected: with the end month included, the months scraped for every accepted term run month by month from the window's start month to its end month, years included. |
| TermMonths.GetDhuEventList | back/main.py:44-69 | As written: a bad identifier gives the 400 object and no scraping. Otherwise the scraper is called for the walk of `get_month_range(start.month, end.month)` up to the first failed login. The reply is every target's events in order, or the 401 object with the exception text. |
| TermMonths.GetDhuEventListCorrected | back/main.py:44-69 | Corrected: the same endpoint over the inclusive month list, so the scraper is called for the window's months up to and including the end month. |
| TermMonths.ScrapeMonths | back/main.py:52-69 | The loop with `year` and `pre_month` makes exactly the calls of the walk up to the first failure, and returns what `Gather` returns. |
| ImportFormCommons.ExcludeOutOfImportRangeSeconds | front/libs/importFormCommons.ts:21-35 | Every kept event is in the input and starts at a whole second strictly inside the quarter's seconds. Every such input event is kept. |
| ImportFormCommons.SecondsFilterIsSubsequence | front/libs/importFormCommons.ts:32 | The result is an order-preserving subsequence of the input. |
| ImportFormCommons.SecondsFilterIdempotent | front/libs/importFormCommons.ts:32-35 | Filtering twice gives the same result as filtering once. |
| ImportFormCommons.SecondsFilterCommutesWithPermutation | front/libs/importFormCommons.ts:32-35 | Inputs that are permutations of each other give results that are permutations of each other. |
| ImportFormCommons.GetSelectableYearList | front/libs/importFormCommons.ts:62-64 | The list is exactly [y−1, y, y+1]. |
| ImportFormCommons.FetchClassEventList | front/libs/importFormCommons.ts:38-60 | The decoded list comes back exactly when the reply is ok and decodes. Every other case gives the single "デジキャンに接続できませんでした" error. |
| ImportForm.Form.constructor | front/components/ImportForm.tsx:12-33 | The form starts at its initial values, with no messages, the unauthenticated state and zero counters. |
| ImportForm.Form.ExistsStateEmpty | front/components/ImportForm.tsx:99-104 | The result is true exactly when one of `importRange`, `toCalendar`, `username` or `password` still has its initial value. |
| ImportForm.Form.ResetErrorMessage | front/components/ImportForm.tsx:126-130 | All four messages are cleared, and nothing else changes. |
| ImportForm.Form.SetErrorMessages | front/components/ImportForm.tsx:132-148 | The messages are the validation messages for the current form, and nothing else changes. |
| ImportForm.ValidationFlagsExactlyEmptyFields | front/components/ImportForm.tsx:132-148 | Each message is set exactly when its field is empty. Some message is set exactly when a required field is empty. |
| ImportForm.KeepJugyo | front/components/ImportForm.tsx:90-92 | The result keeps exactly the input events whose class name contains `eventJugyo`. |
| ImportForm.ExcludeOutOfImportRange | front/components/ImportForm.tsx:150-158 | The result keeps exactly the input events whose start instant lies strictly between the quarter's bounds. |
| ImportForm.JugyoFilterIsSubsequence | front/components/ImportForm.tsx:90-92 | The lecture filter keeps an order-preserving subsequence of its input. |
| ImportForm.RangeFilterIsSubsequence | front/components/ImportForm.tsx:154-157 | The result is an order-preserving subsequence of the input. |
| ImportForm.RangeFilterIdempotent | front/components/ImportForm.tsx:154-157 | Filtering twice gives the same result as filtering once. |
| ImportForm.SecondsFilterKeepsSubsequenceOfMillis | front/components/ImportForm.tsx:150-158 | The whole-second filter keeps an order-preserving subsequence of what the millisecond filter keeps. |
| ImportForm.MillisFilterKeepsMore | front/components/ImportForm.tsx:150-158 | An event one millisecond after a whole-second start is kept by the millisecond filter and dropped by the whole-second filter. |
| ImportForm.IsEventDuplicated | front/components/ImportForm.tsx:248-260 | The result is true exactly when some listed event with a start date-time has the title and starts at the same instant. |
| ImportForm.UndatedEventsNeverMatch | front/components/ImportForm.tsx:250-252 | Dropping the listed events that have no date-time changes no answer. |
| ImportForm.LastPage | front/components/ImportForm.tsx:204-207 | The listing ends at the first reply that is an error or carries no next-page token. |
| ImportForm.RequestsSent | front/components/ImportForm.tsx:187-197 | The j-th listing request carries the query for the token in effect after j replies. |
| ImportForm.GetAlreadyPostedEvents | front/components/ImportForm.tsx:181-209 | Without a session, reading its access token throws (`None`) before any request. Otherwise the result is every page's events up to the last page, or a throw (`None`) when that reply is an error, and one request goes out per page up to the last. |
| ImportForm.OnlyFirstRequestCarriesWindow | front/components/ImportForm.tsx:188-196 | Only the first request carries the quarter window. Each later request sends the previous page's token. |
| ImportForm.ListingConcatenatesPages | front/components/ImportForm.tsx:206 | The accumulated events are the pages' items concatenated in order, each page once. |
| ImportForm.ToPostDropsExactlyDuplicates | front/components/ImportForm.tsx:164-166 | After a successful listing, the result is an order-preserving subsequence without duplicates, and it keeps every event that is not a duplicate. |
| ImportForm.FirstFailure | front/components/ImportForm.tsx:171-178 | The result is the index of the first failing post, or the list length. Every post before it succeeded. |
| ImportForm.PostsSent | front/components/ImportForm.tsx:171-178 | Posts go out in list order, up to and including the first failure. Each post carries the event's start, end, title and the marker. |
| ImportForm.Form.AddEventToGoogleCal | front/components/ImportForm.tsx:225-245 | Without a user, nothing is sent. Otherwise exactly one creation request is sent, a failure throws, and only a success advances the counter. |
| ImportForm.Form.PostInOrder | front/components/ImportForm.tsx:171-178 | The posts sent are `PostsSent`, and the counter grows by the number of successes before the first failure. |
| ImportForm.Form.PostToGoogleCalendar | front/components/ImportForm.tsx:161-179 | A `Session` instance returns at once, with nothing listed or posted and the total unchanged. Otherwise the listing requests go out only when a session exists, and the events already in the calendar are dropped (all are kept when the listing fails or throws). The total is the length of that list. With a user it is posted in order up to the first failure, with the counter counting successes. Without a user nothing is posted and the counter is unchanged. |
| ImportForm.Form.OnImportClick | front/components/ImportForm.tsx:73-97 | With a required field empty, the messages are exactly the empty fields' and nothing is requested. A fetch failure is alerted. Otherwise the lecture filter is applied when asked, then the range filter, and the counter is reset. A `Session` instance posts nothing. Any other session leaves as total the filtered list's length, and that list is posted only with a user. The form ends ready. |
| AllDeleteButton.KeepCreated | front/components/ImportModules/AllDeleteButton.tsx:80-82 | The kept events are exactly the input events with a non-empty description that contains `#created_by_dp2gc`. |
| AllDeleteButton.MapSet | front/components/ImportModules/AllDeleteButton.tsx:78-83 | An existing key's value is replaced in place. A new key is appended at the end. |
| AllDeleteButton.PlanList | front/components/ImportModules/AllDeleteButton.tsx:51-84 | Every entry's key is one of the calendars listed so far. |
| AllDeleteButton.PlanIsList | front/components/ImportModules/AllDeleteButton.tsx:50-84 | With distinct calendar ids, the map is the successful calendars' marked events, in calendar order. |
| AllDeleteButton.PlanListHasSucceeded | front/components/ImportModules/AllDeleteButton.tsx:78-83 | A calendar whose listing succeeded has an entry holding its marked events. |
| AllDeleteButton.PlanListOmitsFailed | front/components/ImportModules/AllDeleteButton.tsx:74-77 | A calendar whose listing returned an error object gets no entry. |
| AllDeleteButton.EntryUrls | front/components/ImportModules/AllDeleteButton.tsx:93-97 | One URL `…/calendars/{calendar}/events/{event}` per event of the entry, in order. |
| AllDeleteButton.UrlsMatchCount | front/components/ImportModules/AllDeleteButton.tsx:86-98 | The URL list is exactly as long as the count. |
| AllDeleteButton.UrlsConcatenateEntries | front/components/ImportModules/AllDeleteButton.tsx:86-98 | The URLs run by calendar, then by event. The count is the sum of the kept lists' lengths. |
| AllDeleteButton.DeleteLogShape | front/components/ImportModules/AllDeleteButton.tsx:115-128 | Exactly one delete per URL, in list order. Each delete is followed by a 250 ms wait, the last one included, and the counter shown in the wait counts that delete. |
| AllDeleteButton.ButtonEnabledWhileDeleting | front/components/ImportModules/AllDeleteButton.tsx:108-112 | As written, the button is enabled during every wait and never shows the deleting status. |
| AllDeleteButton.ButtonDisabledWhileDeleting | front/components/ImportModules/AllDeleteButton.tsx:108-130 | With the deleting status kept, the button is disabled during every wait. |
| AllDeleteButton.Button.constructor | front/components/ImportModules/AllDeleteButton.tsx:22-27 | No dialog, zero counts, and the unauthenticated status. |
| AllDeleteButton.Button.OnAuthStatus | front/components/ImportModules/AllDeleteButton.tsx:30-33 | The status is unauthenticated, or ready for any other sign-in status. Nothing else changes. |
| AllDeleteButton.Button.OnAllDeleteClick | front/components/ImportModules/AllDeleteButton.tsx:35-101 | The status becomes `getting_calendar` and the URL list is emptied. Without a user, nothing is requested. Otherwise every calendar is listed, the count and the URL list come from the plan, and the dialog opens. |
| AllDeleteButton.Button.ListCalendars | front/components/ImportModules/AllDeleteButton.tsx:50-84 | The listing loop builds the plan map and lists every calendar in order. |
| AllDeleteButton.Button.CountEvents | front/components/ImportModules/AllDeleteButton.tsx:86-91 | The counting loop returns the number of planned deletions. |
| AllDeleteButton.Button.CollectUrls | front/components/ImportModules/AllDeleteButton.tsx:92-98 | The nested loops build the plan's URL list. |
| AllDeleteButton.Button.HandleClose | front/components/ImportModules/AllDeleteButton.tsx:103-106 | The dialog closes and the status becomes ready. Nothing else changes. |
| AllDeleteButton.Button.AllDelete | front/components/ImportModules/AllDeleteButton.tsx:108-130 | As written, the status is already ready when the deletes start. With a session, one delete per URL goes out, each followed by a wait showing ready. The button is enabled during every wait of the run. The counter ends at the list's length whatever the outcomes. |
| AllDeleteButton.Button.AllDeleteKeepingStatus | front/components/ImportModules/AllDeleteButton.tsx:108-130 | Corrected: every wait shows deleting, so the button is disabled during every wait of the run, and the status returns to ready only after the last wait. |
| AllDeleteButton.Button.RunDeletes | front/components/ImportModules/AllDeleteButton.tsx:115-128 | The delete loop advances the counter once per URL, and its effects are the delete log. |

## Left out

- HTTP transport is left out. This covers `fetch`, the static header tables (src/pages/api/classEvents.ts:146-168), the Google Calendar endpoints, the FastAPI/CORS setup and the `scraping` module. Every reply is an input, and the scraper is a function parameter.
- `XMLParser`, `JSDOM` and `JSON.parse` are foreign parsers. Their results are inputs: the `update` children, the `<input>` list and a decoder to records.
- dayjs and `Date` are left out. The current year, today's date text and the UTC offset are parameters. Window arithmetic is done on Gregorian day counts with a fixed offset, so daylight-saving changes are not modelled.
- PortalFetch.UrlToQueryParameter: the 400 responses for a non-numeric year and for a bad range (src/pages/api/classEvents.ts:112-121) are left out. They write a response and then carry on, which is a side effect and not a stateable result.
- PortalFetch.Handler: the import range's month list (`getMonthList`) is an input. A `new ImportRange` that throws escapes the route, and this is not modelled.
- PortalFetch.Handler: the login reply is an input, so a login request that rejects (and escapes the route) is not modelled. The `JSESSIONID` cookie header of the month requests is built by `generateHeaders` (src/pages/api/classEvents.ts:146-168), which is left out with the other header tables; only the request bodies are stated.
- Percent-encoding of the form bodies is left out. A body is modelled as its ordered name/value pairs.
- PortalFetch.ParseClassEvents: a record that the `ClassEvent` constructor would reject is not modelled, because conversion is a total function parameter.
- TermMonths.GetDhuEventList and TermMonths.GetDhuEventListCorrected: the 500 branch for a missing window (back/main.py:50-51) is unreachable once the identifier is accepted, so the model has no such branch. Scraper exceptions other than a failed login are not modelled.
- ImportForm.Form.OnImportClick models the `getEventList` request as its outcome: the events, or the alerted message. It does not model a reply that lacks `events` (which would throw in the filter), nor the intermediate "connect portal" and "import" states shown while awaiting.
- ImportForm.Form.PostToGoogleCalendar: `session instanceof Session` is modelled as a flag, separate from the three session states. `toISOString` throwing on an invalid date is left out.
- ImportForm.GetAlreadyPostedEvents requires that some reply ends the listing (`SomePageStops`). A provider that sends next-page tokens forever would make the source loop forever.
- ImportForm.IsEventDuplicated: instants are compared as integers from `instantOf`. The ISO-string round trip is taken to preserve equality.
- AllDeleteButton.Button.OnAllDeleteClick: the three loops run as helper methods that compute locals. The URL list is assigned once, not pushed element by element. As in the source, the status stays `getting_calendar` after planning until the dialog is answered.
- AllDeleteButton.Button.AllDelete: the delete responses are not awaited in the source and play no part. The 250 ms pause is a recorded wait step, not wall-clock time.
- The `disabled` prop of the bulk-delete button, the rendering (JSX, MUI, dialogs) and `window.onbeforeunload` are presentation and are left out.
- `getQuarterRange`, `getEndTime` and `encodeQueryData` are helpers outside this model. Quarter bounds are inputs, `endOf` is a parameter, and a query is a datatype.

## Findings

| source | as written | input that shows it | evidently intended | confidence | as-written member | corrected member |
|---|---|---|---|---|---|---|
| back/main.py:28-29 | `get_month_range` returns `range(start, end)` when start < end, so the window's end month is never scraped (`TermMonths.WrittenTargetsDropEndMonth`). | importRange "3q": the window is 20 Sep – 30 Nov, the months are [9, 10], and November is missed (`TermMonths.ThirdQuarterMissesNovember`). "1q" and "2q" lose June and August the same way. | The months from start to end inclusive, as in the wrapping branch (`TermMonths.TermTargetsCoverWindow`). | high, not executed | TermMonths.GetDhuEventList | TermMonths.GetDhuEventListCorrected |
| front/components/ImportModules/AllDeleteButton.tsx:108-112 | `allDelete` sets `deleting`, then immediately calls `handleClose`, which sets `ready`. | Any non-empty URL list: during the first 250 ms wait the status is `ready`, so the button is enabled and the deleting counter is never shown. | The status stays `deleting` until the loop ends, and only the dialog closes. | high, not executed | AllDeleteButton.ButtonEnabledWhileDeleting | AllDeleteButton.ButtonDisabledWhileDeleting |
