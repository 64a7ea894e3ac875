/**
 * The calendar import form: the required-field check and its messages, the
 * class filter, the millisecond range filter, de-duplication against events
 * already in the destination calendar, the paginated listing of those events
 * and the sequential post loop with its progress counter.
 *
 * The calendar provider's replies are inputs: `pages` answers the listing
 * requests in order and `replies` answers the i-th post. Date parsing
 * (`instantOf`), the end-time helper (`endOf`) and the quarter bounds are
 * parameters; the login session is one of three states.
 */
module ImportForm {
  import opened Base
  import opened Seqs
  import opened ImportFormCommons
  import opened CalendarApi

  /** The form's fields. */
  datatype Inputs = Inputs(importYear: string, importRange: string, toCalendar: string,
                           username: string, password: string, ignoreOtherEvents: bool)

  /** A form field's value: text, or the checkbox. */
  datatype FieldValue = Text(text: string) | Flag(flag: bool)

  /** The form's initial state; `lastYear` is the previous calendar year as text. */
  function InitialInputs(lastYear: string): Inputs
  {
    Inputs(lastYear, "", "", "", "", true)
  }

  /** The form's keys in declaration order. */
  const FormKeys: seq<string> := ["importYear", "importRange", "toCalendar", "username", "password", "ignoreOtherEvents"]

  /** The keys that must differ from their initial value. */
  const RequiredKeys: seq<string> := ["importRange", "toCalendar", "username", "password"]

  /** The value stored under a form key. */
  function Field(form: Inputs, key: string): FieldValue
  {
    if key == "importYear" then Text(form.importYear)
    else if key == "importRange" then Text(form.importRange)
    else if key == "toCalendar" then Text(form.toCalendar)
    else if key == "username" then Text(form.username)
    else if key == "password" then Text(form.password)
    else Flag(form.ignoreOtherEvents)
  }

  /** Some required field is still empty. */
  predicate HasEmptyRequired(form: Inputs)
  {
    form.importRange == "" || form.toCalendar == "" || form.username == "" || form.password == ""
  }

  /** The four validation messages shown under the form. */
  datatype ErrorMessages = ErrorMessages(importRange: string, toCalendar: string, username: string, password: string)

  const NoErrors: ErrorMessages := ErrorMessages("", "", "", "")
  const RangeMissing: string := "インポート範囲が指定されていません"
  const CalendarMissing: string := "インポート先のカレンダーが指定されていません"
  const UsernameMissing: string := "ユーザー名を入力してください"
  const PasswordMissing: string := "パスワードを入力してください"

  /** The messages shown after clearing them and validating `form`. */
  function ValidationMessages(form: Inputs): ErrorMessages
  {
    ErrorMessages(if form.importRange == "" then RangeMissing else "",
                  if form.toCalendar == "" then CalendarMissing else "",
                  if form.username == "" then UsernameMissing else "",
                  if form.password == "" then PasswordMissing else "")
  }

  /**
   * Validation flags exactly the empty required fields, and flags something
   * exactly when some required field is empty.
   */
  lemma ValidationFlagsExactlyEmptyFields(form: Inputs)
    ensures var m := ValidationMessages(form);
      && (m.importRange != "" <==> form.importRange == "")
      && (m.toCalendar != "" <==> form.toCalendar == "")
      && (m.username != "" <==> form.username == "")
      && (m.password != "" <==> form.password == "")
      && (m != NoErrors <==> HasEmptyRequired(form))
  {
  }

  /** The events kept when only lectures are wanted. */
  const JugyoClass: string := "eventJugyo"

  predicate IsJugyo(e: ClassEvent)
  {
    Includes(e.className, JugyoClass)
  }

  /** The lecture filter: keeps, in order, exactly the events whose class names mention `eventJugyo`. */
  function KeepJugyo(events: seq<ClassEvent>): (r: seq<ClassEvent>)
    ensures forall i :: 0 <= i < |r| ==> r[i] in events && Includes(r[i].className, JugyoClass)
    ensures forall i :: 0 <= i < |events| && Includes(events[i].className, JugyoClass) ==> events[i] in r
  {
    Filter(events, IsJugyo)
  }

  /** The lecture filter keeps an order-preserving subsequence of its input. */
  lemma JugyoFilterIsSubsequence(events: seq<ClassEvent>)
    ensures IsSubsequence(KeepJugyo(events), events)
  {
    FilterIsSubsequence(events, IsJugyo);
  }

  /** The start instant lies strictly between the quarter's bounds. */
  predicate StartsWithin(e: ClassEvent, startMs: int, endMs: int, instantOf: InstantOf)
  {
    var t := instantOf(e.start);
    t > startMs && t < endMs
  }

  /**
   * `excludeOutOfImportRange`, millisecond variant: keeps, in order, exactly the
   * events whose start lies strictly inside the quarter.
   */
  function ExcludeOutOfImportRange(events: seq<ClassEvent>, startMs: int, endMs: int, instantOf: InstantOf)
    : (r: seq<ClassEvent>)
    ensures forall i :: 0 <= i < |r| ==> r[i] in events && startMs < instantOf(r[i].start) < endMs
    ensures forall i :: 0 <= i < |events| && StartsWithin(events[i], startMs, endMs, instantOf) ==> events[i] in r
  {
    Filter(events, e => StartsWithin(e, startMs, endMs, instantOf))
  }

  /** The range filter keeps an order-preserving subsequence of its input. */
  lemma RangeFilterIsSubsequence(events: seq<ClassEvent>, startMs: int, endMs: int, instantOf: InstantOf)
    ensures IsSubsequence(ExcludeOutOfImportRange(events, startMs, endMs, instantOf), events)
  {
    FilterIsSubsequence(events, e => StartsWithin(e, startMs, endMs, instantOf));
  }

  /** Applying the range filter twice gives what applying it once gives. */
  lemma RangeFilterIdempotent(events: seq<ClassEvent>, startMs: int, endMs: int, instantOf: InstantOf)
    ensures var once := ExcludeOutOfImportRange(events, startMs, endMs, instantOf);
      ExcludeOutOfImportRange(once, startMs, endMs, instantOf) == once
  {
    FilterIdempotent(events, e => StartsWithin(e, startMs, endMs, instantOf));
  }

  /** Rounding down to whole seconds never reverses the order of two instants. */
  lemma SecondsMonotone(a: int, b: int)
    requires a <= b
    ensures UnixSeconds(a) <= UnixSeconds(b)
  {
    var qa, qb := a / 1000, b / 1000;
    assert a == qa * 1000 + a % 1000 && b == qb * 1000 + b % 1000;
  }

  /**
   * Comparing whole seconds is stricter than comparing milliseconds: what the
   * seconds filter keeps is an order-preserving subsequence of what the
   * millisecond filter keeps.
   */
  lemma SecondsFilterKeepsSubsequenceOfMillis(events: seq<ClassEvent>, startMs: int, endMs: int, instantOf: InstantOf)
    ensures IsSubsequence(ExcludeOutOfImportRangeSeconds(events, startMs, endMs, instantOf),
                          ExcludeOutOfImportRange(events, startMs, endMs, instantOf))
  {
    var p := e => StartsWithinSeconds(e, startMs, endMs, instantOf);
    var q := e => StartsWithin(e, startMs, endMs, instantOf);
    forall e | p(e) ensures q(e) {
      var t := instantOf(e.start);
      if t <= startMs {
        SecondsMonotone(t, startMs);
      }
      if t >= endMs {
        SecondsMonotone(endMs, t);
      }
    }
    FilterStronger(events, p, q);
  }

  /** The converse fails: an event one millisecond after a whole-second start is kept by one filter only. */
  lemma MillisFilterKeepsMore()
    ensures var e := ClassEvent("lecture", "start", JugyoClass);
      var at := (s: string) => 1;
      && ExcludeOutOfImportRange([e], 0, 5000, at) == [e]
      && ExcludeOutOfImportRangeSeconds([e], 0, 5000, at) == []
  {
    var e := ClassEvent("lecture", "start", JugyoClass);
    var at := (s: string) => 1;
    assert [e][1..] == [];
    assert !StartsWithinSeconds(e, 0, 5000, at);
  }

  /** The listed event has a non-empty start date-time (all-day events have none). */
  predicate HasDateTime(r: RemoteEvent)
  {
    r.startDateTime.Some? && r.startDateTime.value != ""
  }

  /** The listed event has the class event's title and starts at the same instant. */
  predicate SameEvent(r: RemoteEvent, e: ClassEvent, instantOf: InstantOf)
  {
    HasDateTime(r) && r.summary == Some(e.title) && instantOf(r.startDateTime.value) == instantOf(e.start)
  }

  /** Some listed event is the class event. */
  predicate IsDuplicate(remote: seq<RemoteEvent>, e: ClassEvent, instantOf: InstantOf)
  {
    exists i :: 0 <= i < |remote| && SameEvent(remote[i], e, instantOf)
  }

  /** `isEventDuplicated`: scans the listed events, skipping those without a date-time. */
  method IsEventDuplicated(remote: seq<RemoteEvent>, e: ClassEvent, instantOf: InstantOf) returns (b: bool)
    ensures b <==> IsDuplicate(remote, e, instantOf)
  {
    for i := 0 to |remote|
      invariant forall j :: 0 <= j < i ==> !SameEvent(remote[j], e, instantOf)
    {
      var r := remote[i];
      if r.startDateTime.None? || r.startDateTime.value == "" {
        continue;
      }
      var sameTitle := r.summary == Some(e.title);
      var sameStart := instantOf(e.start) == instantOf(r.startDateTime.value);
      if sameTitle && sameStart {
        return true;
      }
    }
    return false;
  }

  /** Listed events without a date-time never count: dropping them changes no answer. */
  lemma {:induction false} UndatedEventsNeverMatch(remote: seq<RemoteEvent>, e: ClassEvent, instantOf: InstantOf)
    ensures IsDuplicate(remote, e, instantOf) <==> IsDuplicate(Filter(remote, HasDateTime), e, instantOf)
  {
    var dated := Filter(remote, HasDateTime);
    if IsDuplicate(remote, e, instantOf) {
      var i :| 0 <= i < |remote| && SameEvent(remote[i], e, instantOf);
      assert remote[i] in dated;
      var j :| 0 <= j < |dated| && dated[j] == remote[i];
      assert SameEvent(dated[j], e, instantOf);
    }
    if IsDuplicate(dated, e, instantOf) {
      var j :| 0 <= j < |dated| && SameEvent(dated[j], e, instantOf);
      assert dated[j] in remote;
      var i :| 0 <= i < |remote| && remote[i] == dated[j];
      assert SameEvent(remote[i], e, instantOf);
    }
  }

  /** The query of a listing request: the quarter window, or a page token. */
  datatype PageQuery =
    | WindowQuery(maxResults: int, timeMax: string, timeMin: string, orderBy: string, singleEvents: bool)
    | TokenQuery(pageToken: string)

  /** A listing request against the destination calendar. */
  datatype PageRequest = PageRequest(calendarId: string, query: PageQuery)

  /** A listing reply: an error object, or a page of events with an optional next-page token. */
  datatype PageReply = ErrorPage(code: int) | Page(items: seq<RemoteEvent>, nextPageToken: Option<string>)

  /** The listing ends at this reply: it is an error, or it carries no next-page token. */
  predicate Stops(p: PageReply)
  {
    p.ErrorPage? || p.nextPageToken.None?
  }

  /** The provider eventually sends a last page or an error. */
  predicate SomePageStops(pages: seq<PageReply>)
  {
    exists n :: 0 <= n < |pages| && Stops(pages[n])
  }

  /** The index of the reply that ends the listing. */
  function LastPage(pages: seq<PageReply>): (k: nat)
    requires SomePageStops(pages)
    ensures k < |pages| && Stops(pages[k])
    ensures forall j :: 0 <= j < k ==> !Stops(pages[j])
  {
    if Stops(pages[0]) then 0
    else
      var n :| 0 <= n < |pages| && Stops(pages[n]);
      assert Stops(pages[1..][n - 1]);
      1 + LastPage(pages[1..])
  }

  /** The page token in effect after the first `k` replies: the latest non-empty one, else "". */
  function TokenAfter(pages: seq<PageReply>, k: nat): string
    requires k <= |pages|
  {
    if k == 0 then ""
    else
      var p := pages[k - 1];
      if p.Page? && p.nextPageToken.Some? && p.nextPageToken.value != "" then p.nextPageToken.value
      else TokenAfter(pages, k - 1)
  }

  /** The query sent with a given token: the quarter window while the token is empty. */
  function QueryFor(token: string, timeMin: string, timeMax: string): PageQuery
  {
    if token != "" then TokenQuery(token) else WindowQuery(2000, timeMax, timeMin, "startTime", true)
  }

  /** The events of a page reply, none for an error. */
  function ItemsOf(p: PageReply): seq<RemoteEvent>
  {
    if p.Page? then p.items else []
  }

  /** The events of the first `k` replies, in reply order. */
  function AllItems(pages: seq<PageReply>, k: nat): seq<RemoteEvent>
    requires k <= |pages|
  {
    if k == 0 then [] else AllItems(pages, k - 1) + ItemsOf(pages[k - 1])
  }

  /** The listing's outcome: every listed event, or nothing when an error reply ended it. */
  function ListingOutcome(pages: seq<PageReply>): Option<seq<RemoteEvent>>
    requires SomePageStops(pages)
  {
    var k := LastPage(pages);
    if pages[k].ErrorPage? then None else Some(AllItems(pages, k + 1))
  }

  /** The requests for the first `n` pages: each carries the query for the token in effect before it. */
  function RequestsSent(calendarId: string, pages: seq<PageReply>, n: nat, timeMin: string, timeMax: string)
    : (r: seq<PageRequest>)
    requires n <= |pages|
    ensures |r| == n
    ensures forall j :: 0 <= j < n ==> r[j] == PageRequest(calendarId, QueryFor(TokenAfter(pages, j), timeMin, timeMax))
  {
    if n == 0 then []
    else RequestsSent(calendarId, pages, n - 1, timeMin, timeMax)
         + [PageRequest(calendarId, QueryFor(TokenAfter(pages, n - 1), timeMin, timeMax))]
  }

  /**
   * The login session as the form sees it: none at all, one without a user, or
   * one with a user. Only the last may post; the first throws as soon as the
   * listing reads its access token.
   */
  datatype SessionState = NoSession | SessionWithoutUser | SessionWithUser

  /**
   * `getAlreadyPostedEvents`: requests pages until one lacks a next-page token,
   * appending each page's events; the first request carries the quarter window,
   * later ones the latest non-empty token. An error reply throws (`None`), and
   * so does a missing session, before anything is sent.
   * `requests` lists what was sent.
   */
  method GetAlreadyPostedEvents(calendarId: string, hasSession: bool, timeMin: string, timeMax: string,
                                pages: seq<PageReply>)
    returns (r: Option<seq<RemoteEvent>>, requests: seq<PageRequest>)
    requires SomePageStops(pages)
    ensures !hasSession ==> r == None && requests == []
    ensures hasSession ==> r == ListingOutcome(pages)
    ensures hasSession ==> requests == RequestsSent(calendarId, pages, LastPage(pages) + 1, timeMin, timeMax)
  {
    if !hasSession {
      return None, [];
    }
    var token := "";
    var posted: seq<RemoteEvent> := [];
    requests := [];
    var i := 0;
    ghost var k := LastPage(pages);
    while true
      invariant i <= k
      invariant token == TokenAfter(pages, i)
      invariant posted == AllItems(pages, i)
      invariant requests == RequestsSent(calendarId, pages, i, timeMin, timeMax)
      decreases k - i
    {
      var query := if token != "" then TokenQuery(token) else WindowQuery(2000, timeMax, timeMin, "startTime", true);
      requests := requests + [PageRequest(calendarId, query)];
      var res := pages[i];
      if res.ErrorPage? {
        return None, requests;
      }
      if res.nextPageToken.Some? && res.nextPageToken.value != "" {
        token := res.nextPageToken.value;
      }
      posted := posted + res.items;
      if res.nextPageToken.None? {
        return Some(posted), requests;
      }
      i := i + 1;
    }
  }

  /**
   * When every page before the last carries a non-empty token, only the first
   * request carries the quarter window and each later one sends the token of
   * the page before it.
   */
  lemma OnlyFirstRequestCarriesWindow(pages: seq<PageReply>, timeMin: string, timeMax: string)
    requires SomePageStops(pages)
    requires forall j :: 0 <= j < LastPage(pages) ==> pages[j].nextPageToken.value != ""
    ensures QueryFor(TokenAfter(pages, 0), timeMin, timeMax).WindowQuery?
    ensures forall j :: 1 <= j <= LastPage(pages) ==>
      QueryFor(TokenAfter(pages, j), timeMin, timeMax) == TokenQuery(pages[j - 1].nextPageToken.value)
  {
  }

  /** A listing that ends well holds every page's events, each page once and in order. */
  lemma {:induction false} ListingConcatenatesPages(pages: seq<PageReply>, k: nat)
    requires k <= |pages|
    requires forall j :: 0 <= j < k ==> pages[j].Page?
    ensures AllItems(pages, k) == Flatten(seq(k, j requires 0 <= j < k => pages[j].items))
  {
    if k > 0 {
      ListingConcatenatesPages(pages, k - 1);
      var front := seq(k - 1, j requires 0 <= j < k - 1 => pages[j].items);
      assert seq(k, j requires 0 <= j < k => pages[j].items) == front + [pages[k - 1].items];
      FlattenSnoc(front, pages[k - 1].items);
    }
  }

  /** What the listing gives for a session: a missing session throws before any request. */
  function Listed(session: SessionState, pages: seq<PageReply>): Option<seq<RemoteEvent>>
    requires SomePageStops(pages)
  {
    if session.NoSession? then None else ListingOutcome(pages)
  }

  /** The class events still to post: without those already in the calendar, when the listing worked. */
  function ToPost(events: seq<ClassEvent>, listed: Option<seq<RemoteEvent>>, instantOf: InstantOf): seq<ClassEvent>
  {
    if listed.Some? then Filter(events, e => !IsDuplicate(listed.value, e, instantOf)) else events
  }

  /** After a successful listing exactly the events not yet in the calendar remain, in order. */
  lemma ToPostDropsExactlyDuplicates(events: seq<ClassEvent>, listed: seq<RemoteEvent>, instantOf: InstantOf)
    ensures var r := ToPost(events, Some(listed), instantOf);
      && IsSubsequence(r, events)
      && (forall i :: 0 <= i < |r| ==> !IsDuplicate(listed, r[i], instantOf))
      && (forall i :: 0 <= i < |events| && !IsDuplicate(listed, events[i], instantOf) ==> events[i] in r)
  {
    FilterIsSubsequence(events, e => !IsDuplicate(listed, e, instantOf));
  }

  /** What a post got back: no response at all, or an HTTP status. */
  datatype PostReply = Rejected | Status(code: int)

  /** The post throws: the request failed or the status is 400 or above. */
  predicate PostFails(r: PostReply)
  {
    r.Rejected? || r.code >= 400
  }

  /** The body of an event-creation request. */
  datatype EventBody = EventBody(endDateTime: string, startDateTime: string, summary: string, description: string)

  datatype PostRequest = PostRequest(calendarId: string, body: EventBody)

  /** The request that posts a class event: its end from `endOf`, its start, title and the marker. */
  function PostFor(calendarId: string, e: ClassEvent, endOf: string -> string): PostRequest
  {
    PostRequest(calendarId, EventBody(endOf(e.start), e.start, e.title, CreatedByMarker))
  }

  /** The first failing post among posts `from..n-1`, or `n` when none fails. */
  function FirstFailure(replies: nat -> PostReply, from: nat, n: nat): (k: nat)
    requires from <= n
    ensures from <= k <= n
    ensures forall j :: from <= j < k ==> !PostFails(replies(j))
    ensures k < n ==> PostFails(replies(k))
    decreases n - from
  {
    if from == n then n
    else if PostFails(replies(from)) then from
    else FirstFailure(replies, from + 1, n)
  }

  /** The posts sent for `list`: through the first failure, or all of them. */
  function PostsSent(calendarId: string, list: seq<ClassEvent>, replies: nat -> PostReply, endOf: string -> string)
    : (r: seq<PostRequest>)
    ensures var k := FirstFailure(replies, 0, |list|);
      && |r| == (if k < |list| then k + 1 else |list|)
      && forall j :: 0 <= j < |r| ==> r[j] == PostFor(calendarId, list[j], endOf)
  {
    var k := FirstFailure(replies, 0, |list|);
    var n := if k < |list| then k + 1 else |list|;
    seq(n, j requires 0 <= j < n => PostFor(calendarId, list[j], endOf))
  }

  /** The form's application state. */
  datatype AppState = Unauthenticated | Ready | ConnectPortal | Importing

  class Form {
    /** The previous calendar year as text, the initial import year. */
    const lastYear: string
    var formState: Inputs
    var errors: ErrorMessages
    var appState: AppState
    var importCount: nat
    var totalImportCount: nat

    constructor(lastYear: string)
      ensures this.lastYear == lastYear && formState == InitialInputs(lastYear)
      ensures errors == NoErrors && appState == Unauthenticated
      ensures importCount == 0 && totalImportCount == 0
    {
      this.lastYear := lastYear;
      formState := InitialInputs(lastYear);
      errors := NoErrors;
      appState := Unauthenticated;
      importCount := 0;
      totalImportCount := 0;
    }

    /**
     * `existsStateEmpty`: walks the form's keys and answers true at the first
     * required key whose value still equals its initial value.
     */
    method ExistsStateEmpty() returns (empty: bool)
      ensures empty <==> HasEmptyRequired(formState)
    {
      var initial := InitialInputs(lastYear);
      for k := 0 to |FormKeys|
        invariant forall j :: 0 <= j < k ==>
          !(FormKeys[j] in RequiredKeys && Field(initial, FormKeys[j]) == Field(formState, FormKeys[j]))
      {
        var key := FormKeys[k];
        if key in RequiredKeys && Field(initial, key) == Field(formState, key) {
          return true;
        }
      }
      assert !(FormKeys[1] in RequiredKeys && Field(initial, FormKeys[1]) == Field(formState, FormKeys[1]));
      assert !(FormKeys[2] in RequiredKeys && Field(initial, FormKeys[2]) == Field(formState, FormKeys[2]));
      assert !(FormKeys[3] in RequiredKeys && Field(initial, FormKeys[3]) == Field(formState, FormKeys[3]));
      assert !(FormKeys[4] in RequiredKeys && Field(initial, FormKeys[4]) == Field(formState, FormKeys[4]));
      return false;
    }

    /** `resetErrorMessage`: clears all four messages. */
    method ResetErrorMessage()
      modifies this
      ensures errors == NoErrors
      ensures formState == old(formState) && appState == old(appState)
      ensures importCount == old(importCount) && totalImportCount == old(totalImportCount)
    {
      errors := NoErrors;
    }

    /**
     * `setErrorMessages`: sets the range and calendar messages only for empty
     * fields, and both credential messages always (empty when the field is filled).
     */
    method SetErrorMessages()
      modifies this
      ensures errors == ErrorMessages(
        if formState.importRange == "" then RangeMissing else old(errors).importRange,
        if formState.toCalendar == "" then CalendarMissing else old(errors).toCalendar,
        if formState.username == "" then UsernameMissing else "",
        if formState.password == "" then PasswordMissing else "")
      ensures formState == old(formState) && appState == old(appState)
      ensures importCount == old(importCount) && totalImportCount == old(totalImportCount)
    {
      if formState.importRange == "" {
        errors := errors.(importRange := RangeMissing);
      }
      if formState.toCalendar == "" {
        errors := errors.(toCalendar := CalendarMissing);
      }
      var usernameMessage := "";
      if formState.username == "" {
        usernameMessage := UsernameMissing;
      }
      var passwordMessage := "";
      if formState.password == "" {
        passwordMessage := PasswordMissing;
      }
      errors := errors.(username := usernameMessage, password := passwordMessage);
    }

    /**
     * `addEventToGoogleCal`: without a session user nothing is sent; otherwise
     * one creation request goes out, a failure throws, and a success advances
     * the import counter by one.
     */
    method AddEventToGoogleCal(e: ClassEvent, hasUser: bool, reply: PostReply, endOf: string -> string)
      returns (threw: bool, sent: Option<PostRequest>)
      modifies this
      ensures !hasUser ==> !threw && sent == None && importCount == old(importCount)
      ensures hasUser ==> sent == Some(PostFor(formState.toCalendar, e, endOf))
      ensures hasUser ==> threw == PostFails(reply)
      ensures hasUser ==> importCount == old(importCount) + (if threw then 0 else 1)
      ensures formState == old(formState) && errors == old(errors) && appState == old(appState)
      ensures totalImportCount == old(totalImportCount)
    {
      if !hasUser {
        return false, None;
      }
      sent := Some(PostFor(formState.toCalendar, e, endOf));
      if reply.Rejected? || reply.code >= 400 {
        return true, sent;
      }
      importCount := importCount + 1;
      threw := false;
    }

    /**
     * `postToGoogleCalendar`: drops the events already in the calendar (keeping
     * all of them when the listing fails, or throws for want of a session),
     * records the total, then posts in order and stops at the first failure.
     * `replies(i)` answers the i-th post.
     */
    method PostToGoogleCalendar(events: seq<ClassEvent>, sessionIsInstance: bool, session: SessionState,
                                timeMin: string, timeMax: string, pages: seq<PageReply>,
                                replies: nat -> PostReply, instantOf: InstantOf, endOf: string -> string)
      returns (posted: seq<PostRequest>, listing: seq<PageRequest>)
      requires SomePageStops(pages)
      modifies this
      ensures formState == old(formState) && errors == old(errors) && appState == old(appState)
      ensures sessionIsInstance ==>
        posted == [] && listing == [] && importCount == old(importCount) && totalImportCount == old(totalImportCount)
      ensures !sessionIsInstance ==>
        var list := ToPost(events, Listed(session, pages), instantOf);
        && listing == (if session.NoSession? then []
                       else RequestsSent(formState.toCalendar, pages, LastPage(pages) + 1, timeMin, timeMax))
        && totalImportCount == |list|
        && (session.SessionWithUser? ==> posted == PostsSent(formState.toCalendar, list, replies, endOf))
        && (session.SessionWithUser? ==> importCount == old(importCount) + FirstFailure(replies, 0, |list|))
        && (!session.SessionWithUser? ==> posted == [] && importCount == old(importCount))
    {
      if sessionIsInstance {
        return [], [];
      }
      var list := events;
      var listed;
      listed, listing := GetAlreadyPostedEvents(formState.toCalendar, !session.NoSession?, timeMin, timeMax, pages);
      if listed.Some? {
        list := Filter(list, e => !IsDuplicate(listed.value, e, instantOf));
      }
      totalImportCount := |list|;
      posted := PostInOrder(list, session.SessionWithUser?, replies, endOf);
    }

    /**
     * The posting loop of `postToGoogleCalendar`: posts `list` in order, each
     * success advancing the counter, and stops at the first failed post.
     */
    method PostInOrder(list: seq<ClassEvent>, hasUser: bool, replies: nat -> PostReply, endOf: string -> string)
      returns (posted: seq<PostRequest>)
      modifies this
      ensures formState == old(formState) && errors == old(errors) && appState == old(appState)
      ensures totalImportCount == old(totalImportCount)
      ensures hasUser ==> posted == PostsSent(formState.toCalendar, list, replies, endOf)
      ensures hasUser ==> importCount == old(importCount) + FirstFailure(replies, 0, |list|)
      ensures !hasUser ==> posted == [] && importCount == old(importCount)
    {
      posted := [];
      var calendar := formState.toCalendar;
      ghost var k := FirstFailure(replies, 0, |list|);
      for i := 0 to |list|
        invariant formState == old(formState) && errors == old(errors) && appState == old(appState)
        invariant totalImportCount == old(totalImportCount)
        invariant hasUser ==> i <= k
        invariant hasUser ==> posted == seq(i, j requires 0 <= j < i => PostFor(calendar, list[j], endOf))
        invariant hasUser ==> importCount == old(importCount) + i
        invariant !hasUser ==> posted == [] && importCount == old(importCount)
      {
        var threw, sent := AddEventToGoogleCal(list[i], hasUser, replies(i), endOf);
        if sent.Some? {
          posted := posted + [sent.value];
        }
        if threw {
          assert k == i;
          assert posted == seq(i + 1, j requires 0 <= j < i + 1 => PostFor(calendar, list[j], endOf));
          return;
        }
      }
    }

    /**
     * `onImportClick`: clears the messages; with a required field empty it shows
     * the messages and stops before any request. Otherwise it fetches the class
     * events (`fetched`; a failure is alerted and the form is ready again),
     * keeps only lectures when asked, keeps those inside the quarter, resets the
     * counter and posts.
     */
    method OnImportClick(fetched: Result<seq<ClassEvent>, string>, quarterStartMs: int, quarterEndMs: int,
                         sessionIsInstance: bool, session: SessionState, timeMin: string, timeMax: string,
                         pages: seq<PageReply>, replies: nat -> PostReply,
                         instantOf: InstantOf, endOf: string -> string)
      returns (requested: bool, alert: Option<string>, posted: seq<PostRequest>)
      requires SomePageStops(pages)
      modifies this
      ensures formState == old(formState)
      ensures HasEmptyRequired(formState) ==>
        !requested && alert == None && posted == [] && errors == ValidationMessages(formState)
        && appState == old(appState) && importCount == old(importCount)
      ensures !HasEmptyRequired(formState) ==> requested && errors == NoErrors && appState == Ready
      ensures !HasEmptyRequired(formState) && fetched.Err? ==>
        alert == Some(fetched.error) && posted == [] && importCount == old(importCount)
      ensures !HasEmptyRequired(formState) && fetched.Ok? ==> alert == None
      ensures !HasEmptyRequired(formState) && fetched.Ok? && sessionIsInstance ==>
        posted == [] && importCount == 0 && totalImportCount == old(totalImportCount)
      ensures !HasEmptyRequired(formState) && fetched.Ok? && !sessionIsInstance ==>
        var selected := if formState.ignoreOtherEvents then KeepJugyo(fetched.value) else fetched.value;
        var inRange := ExcludeOutOfImportRange(selected, quarterStartMs, quarterEndMs, instantOf);
        var list := ToPost(inRange, Listed(session, pages), instantOf);
        && totalImportCount == |list|
        && (session.SessionWithUser? ==> posted == PostsSent(formState.toCalendar, list, replies, endOf))
        && (session.SessionWithUser? ==> importCount == FirstFailure(replies, 0, |list|))
        && (!session.SessionWithUser? ==> posted == [] && importCount == 0)
    {
      ResetErrorMessage();
      var empty := ExistsStateEmpty();
      if empty {
        SetErrorMessages();
        return false, None, [];
      }
      requested := true;
      appState := ConnectPortal;
      if fetched.Err? {
        appState := Ready;
        return requested, Some(fetched.error), [];
      }
      appState := Importing;
      var classEvents := fetched.value;
      if formState.ignoreOtherEvents {
        classEvents := KeepJugyo(classEvents);
      }
      importCount := 0;
      classEvents := ExcludeOutOfImportRange(classEvents, quarterStartMs, quarterEndMs, instantOf);
      var listing;
      posted, listing := PostToGoogleCalendar(classEvents, sessionIsInstance, session, timeMin, timeMax,
                                              pages, replies, instantOf, endOf);
      appState := Ready;
      alert := None;
    }
  }
}
