/**
 * Fetching class events from the portal one month at a time and the API
 * handler that runs the month loop (src/pages/api/classEvents.ts).
 * The portal's replies, the JSON decoder and the `ClassEvent` constructor are
 * parameters: `portal(n)` is the reply to the n-th event request of the run.
 */
module PortalFetch {
  import opened Base
  import opened Seqs
  import opened FormParams
  import opened CivilTime
  import opened Decimal
  import opened PortalSession

  /** Start of the query window: local midnight of the 1st of the month, in whole seconds times 1000. */
  function WindowStart(year: int, month: int, utcOffset: int): int
    requires 1 <= month <= 12
  {
    LocalMidnight(year, month, 1, utcOffset) * 1000
  }

  /** End of the query window: the 1st of the month, plus one month, minus one day. */
  function WindowEnd(year: int, month: int, utcOffset: int): int
    requires 1 <= month <= 12
  {
    var next := NextMonth(year, month);
    (LocalMidnight(next.0, next.1, 1, utcOffset) - SecondsPerDay) * 1000
  }

  /** The window runs from the first to the last day of the month, so it is never empty. */
  lemma QueryWindowIsTheMonth(year: int, month: int, utcOffset: int)
    requires 1 <= month <= 12
    ensures WindowEnd(year, month, utcOffset) == LocalMidnight(year, month, DaysInMonth(year, month), utcOffset) * 1000
    ensures WindowEnd(year, month, utcOffset) - WindowStart(year, month, utcOffset)
            == (DaysInMonth(year, month) - 1) * SecondsPerDay * 1000
    ensures WindowStart(year, month, utcOffset) < WindowEnd(year, month, utcOffset)
    ensures WindowStart(year, month, utcOffset) % 1000 == 0 && WindowEnd(year, month, utcOffset) % 1000 == 0
  {
    NextMonthFirstDay(year, month);
  }

  const StartField: string := "funcForm:j_idt361:content_start"
  const EndField: string := "funcForm:j_idt361:content_end"
  const DateField: string := "funcForm:j_idt361:j_idt1767:j_idt1767_input"

  /** The fixed partial-request header fields. */
  function AjaxHead(): seq<Pair>
  {
    [("javax.faces.partial.ajax", "true"),
     ("javax.faces.source", "funcForm:j_idt361:content"),
     ("javax.faces.partial.execute", "funcForm:j_idt361:content"),
     ("javax.faces.partial.render", "funcForm:j_idt361:content"),
     ("funcForm:j_idt361:content", "funcForm:j_idt361:content")]
  }

  /** The month's window, rendered as decimal milliseconds. */
  function WindowFields(year: int, month: int, utcOffset: int): seq<Pair>
    requires 1 <= month <= 12
  {
    [(StartField, IntString(WindowStart(year, month, utcOffset))),
     (EndField, IntString(WindowEnd(year, month, utcOffset)))]
  }

  /** The login token fields. */
  function TokenFields(rxToken: string, rxLoginKey: string): seq<Pair>
  {
    [("funcForm", "funcForm"),
     ("rx-token", rxToken),
     ("rx-loginKey", rxLoginKey),
     ("rx-deviceKbn", "1"),
     ("rx-loginType", "Gakuen"),
     ("funcForm:j_idt162_activeIndex", "0")]
  }

  /** The calendar view fields: today's date, the month view and nine empty class memos. */
  function ViewFields(today: string): seq<Pair>
  {
    [(DateField, today), ("funcForm:j_idt361:content_view", "month")]
    + MemoFields()
    + [("funcForm:j_idt361_activeIndex", "1")]
  }

  /** The nine empty day-memo fields of the month view, days 0 to 4 and 5 to 8. */
  function MemoFields(): seq<Pair>
  {
    EarlyMemoFields() + LateMemoFields()
  }

  function EarlyMemoFields(): seq<Pair>
  {
    [("funcForm:j_idt361:j_idt2402:0:jugyoMemo", ""),
     ("funcForm:j_idt361:j_idt2402:1:jugyoMemo", ""),
     ("funcForm:j_idt361:j_idt2402:2:jugyoMemo", ""),
     ("funcForm:j_idt361:j_idt2402:3:jugyoMemo", ""),
     ("funcForm:j_idt361:j_idt2402:4:jugyoMemo", "")]
  }

  function LateMemoFields(): seq<Pair>
  {
    [("funcForm:j_idt361:j_idt2402:5:jugyoMemo", ""),
     ("funcForm:j_idt361:j_idt2402:6:jugyoMemo", ""),
     ("funcForm:j_idt361:j_idt2402:7:jugyoMemo", ""),
     ("funcForm:j_idt361:j_idt2402:8:jugyoMemo", "")]
  }

  /** The partial-request form for one month, in submission order. */
  function QueryForm(year: int, month: int, today: string, utcOffset: int,
                     rxToken: string, rxLoginKey: string, viewState: string): seq<Pair>
    requires 1 <= month <= 12
  {
    AjaxHead() + WindowFields(year, month, utcOffset) + TokenFields(rxToken, rxLoginKey)
      + ViewFields(today) + [("javax.faces.ViewState", viewState)]
  }

  /**
   * `generateBody`: the month's partial-request form, appended field by field;
   * `today` is the formatted current date the form also carries.
   */
  method GenerateBody(year: int, month: int, session: SessionData, today: string, utcOffset: int)
    returns (body: seq<Pair>)
    requires 1 <= month <= 12
    ensures body == QueryForm(year, month, today, utcOffset, session.rxToken, session.rxLoginKey, session.viewState)
  {
    var data := new SearchParams();
    AppendHead(data);
    assert data.pairs == AjaxHead();
    AppendWindow(data, year, month, utcOffset);
    AppendTokens(data, session.rxToken, session.rxLoginKey);
    AppendView(data, today);
    data.Append("javax.faces.ViewState", session.viewState);
    body := data.pairs;
  }

  method AppendWindow(data: SearchParams, year: int, month: int, utcOffset: int)
    requires 1 <= month <= 12
    modifies data
    ensures data.pairs == old(data.pairs) + WindowFields(year, month, utcOffset)
  {
    data.Append(StartField, IntString(WindowStart(year, month, utcOffset)));
    data.Append(EndField, IntString(WindowEnd(year, month, utcOffset)));
  }

  method AppendHead(data: SearchParams)
    modifies data
    ensures data.pairs == old(data.pairs) + AjaxHead()
  {
    data.Append("javax.faces.partial.ajax", "true");
    data.Append("javax.faces.source", "funcForm:j_idt361:content");
    data.Append("javax.faces.partial.execute", "funcForm:j_idt361:content");
    data.Append("javax.faces.partial.render", "funcForm:j_idt361:content");
    data.Append("funcForm:j_idt361:content", "funcForm:j_idt361:content");
  }

  method AppendTokens(data: SearchParams, rxToken: string, rxLoginKey: string)
    modifies data
    ensures data.pairs == old(data.pairs) + TokenFields(rxToken, rxLoginKey)
  {
    data.Append("funcForm", "funcForm");
    data.Append("rx-token", rxToken);
    data.Append("rx-loginKey", rxLoginKey);
    data.Append("rx-deviceKbn", "1");
    data.Append("rx-loginType", "Gakuen");
    data.Append("funcForm:j_idt162_activeIndex", "0");
  }

  method AppendView(data: SearchParams, today: string)
    modifies data
    ensures data.pairs == old(data.pairs) + ViewFields(today)
  {
    data.Append(DateField, today);
    data.Append("funcForm:j_idt361:content_view", "month");
    AppendMemos(data);
    data.Append("funcForm:j_idt361_activeIndex", "1");
  }

  method AppendMemos(data: SearchParams)
    modifies data
    ensures data.pairs == old(data.pairs) + MemoFields()
  {
    AppendEarlyMemos(data);
    AppendLateMemos(data);
  }

  method AppendEarlyMemos(data: SearchParams)
    modifies data
    ensures data.pairs == old(data.pairs) + EarlyMemoFields()
  {
    data.Append("funcForm:j_idt361:j_idt2402:0:jugyoMemo", "");
    data.Append("funcForm:j_idt361:j_idt2402:1:jugyoMemo", "");
    data.Append("funcForm:j_idt361:j_idt2402:2:jugyoMemo", "");
    data.Append("funcForm:j_idt361:j_idt2402:3:jugyoMemo", "");
    data.Append("funcForm:j_idt361:j_idt2402:4:jugyoMemo", "");
  }

  method AppendLateMemos(data: SearchParams)
    modifies data
    ensures data.pairs == old(data.pairs) + LateMemoFields()
  {
    data.Append("funcForm:j_idt361:j_idt2402:5:jugyoMemo", "");
    data.Append("funcForm:j_idt361:j_idt2402:6:jugyoMemo", "");
    data.Append("funcForm:j_idt361:j_idt2402:7:jugyoMemo", "");
    data.Append("funcForm:j_idt361:j_idt2402:8:jugyoMemo", "");
  }

  /** Reading past pairs that do not carry the name. */
  lemma GetSkips(a: seq<Pair>, b: seq<Pair>, name: string)
    requires forall i :: 0 <= i < |a| ==> a[i].0 != name
    ensures Get(a + b, name) == Get(b, name)
  {
    if a != [] {
      assert (a + b)[1..] == a[1..] + b;
      GetSkips(a[1..], b, name);
    } else {
      assert a + b == b;
    }
  }

  /** A name found in the first pairs is read from them, whatever follows. */
  lemma GetFromPrefix(a: seq<Pair>, b: seq<Pair>, name: string)
    requires Get(a, name).Some?
    ensures Get(a + b, name) == Get(a, name)
  {
    if a[0].0 != name {
      assert (a + b)[1..] == a[1..] + b;
      GetFromPrefix(a[1..], b, name);
    }
  }

  /** The portal reading the form sees the month's window. */
  lemma QueryFormCarriesWindow(year: int, month: int, today: string, utcOffset: int,
                               rxToken: string, rxLoginKey: string, viewState: string)
    requires 1 <= month <= 12
    ensures var f := QueryForm(year, month, today, utcOffset, rxToken, rxLoginKey, viewState);
      && Get(f, StartField) == Some(IntString(WindowStart(year, month, utcOffset)))
      && Get(f, EndField) == Some(IntString(WindowEnd(year, month, utcOffset)))
  {
    var head, window := AjaxHead(), WindowFields(year, month, utcOffset);
    var tokens, view := TokenFields(rxToken, rxLoginKey), ViewFields(today);
    var last := [("javax.faces.ViewState", viewState)];
    forall name | name == StartField || name == EndField
      ensures Get(head + window + tokens + view + last, name) == Get(window, name)
    {
      GetSkips(head, window, name);
      GetFromPrefix(head + window, tokens, name);
      GetFromPrefix(head + window + tokens, view, name);
      GetFromPrefix(head + window + tokens + view, last, name);
    }
    assert StartField[26] != EndField[26];
    assert window[1..][0] == (EndField, IntString(WindowEnd(year, month, utcOffset)));
  }

  /** The portal reading the form sees the login tokens of the session. */
  lemma QueryFormCarriesTokens(year: int, month: int, today: string, utcOffset: int,
                               rxToken: string, rxLoginKey: string, viewState: string)
    requires 1 <= month <= 12
    ensures var f := QueryForm(year, month, today, utcOffset, rxToken, rxLoginKey, viewState);
      && Get(f, "rx-token") == Some(rxToken)
      && Get(f, "rx-loginKey") == Some(rxLoginKey)
  {
    var head, window := AjaxHead(), WindowFields(year, month, utcOffset);
    var tokens, view := TokenFields(rxToken, rxLoginKey), ViewFields(today);
    var last := [("javax.faces.ViewState", viewState)];
    assert Get(tokens, "rx-token") == Some(rxToken) by {
      assert tokens[1..][0] == ("rx-token", rxToken);
    }
    assert Get(tokens, "rx-loginKey") == Some(rxLoginKey) by {
      assert tokens[1..][1..][0] == ("rx-loginKey", rxLoginKey);
    }
    forall name | name == "rx-token" || name == "rx-loginKey"
      ensures Get(head + window + tokens + view + last, name) == Get(tokens, name)
    {
      GetSkips(head + window, tokens, name);
      GetFromPrefix(head + window + tokens, view, name);
      GetFromPrefix(head + window + tokens + view, last, name);
    }
  }

  /** The portal reading the form sees the view state of the session. */
  lemma QueryFormCarriesViewState(year: int, month: int, today: string, utcOffset: int,
                                  rxToken: string, rxLoginKey: string, viewState: string)
    requires 1 <= month <= 12
    ensures Get(QueryForm(year, month, today, utcOffset, rxToken, rxLoginKey, viewState), "javax.faces.ViewState")
            == Some(viewState)
  {
    var prefix := AjaxHead() + WindowFields(year, month, utcOffset) + TokenFields(rxToken, rxLoginKey) + ViewFields(today);
    GetSkips(prefix, [("javax.faces.ViewState", viewState)], "javax.faces.ViewState");
  }

  /** The `update` children of the partial-response envelope, as the XML parser hands them over. */
  datatype Updates =
    | NoUpdates                       // the partial-response/changes/update path is missing
    | SingleUpdate(text: string)      // a lone <update> is parsed as a string, not a list
    | UpdateList(items: seq<string>)

  /** What decoding a fragment as JSON and reading its `events` field gives. */
  datatype Json<R> = Malformed | NoEventsField | EventsField(records: seq<R>)

  /** The portal's reply to one month's request, or the error a rejected request throws. */
  datatype PortalReply = Answered(ok: bool, updates: Updates) | Rejected(message: string)

  /** Why a reply could not be turned into class events. */
  datatype ParseError = EnvelopeShape | JsonDecode | EventsNotIterable

  function IsEventsFragment(u: string): bool
  {
    Includes(u, "events")
  }

  /** `update.filter(x => x.includes("events"))[0]`: the first fragment mentioning `events`. */
  function FirstEventsFragment(items: seq<string>): (r: Option<string>)
    ensures r.None? <==> forall i :: 0 <= i < |items| ==> !IsEventsFragment(items[i])
    ensures r.Some? ==> exists i :: 0 <= i < |items| && items[i] == r.value && IsEventsFragment(items[i])
                                   && forall j :: 0 <= j < i ==> !IsEventsFragment(items[j])
  {
    var kept := Filter(items, IsEventsFragment);
    if kept == [] then None
    else
      FilterHead(items, IsEventsFragment);
      Some(kept[0])
  }

  /** What `parseClassEvents` yields: each decoded record becomes one event, in order. */
  function ParseOutcome<R, E>(updates: Updates, decode: string -> Json<R>, convert: R -> E)
    : Result<seq<E>, ParseError>
  {
    match updates
    case NoUpdates => Err(EnvelopeShape)
    case SingleUpdate(_) => Err(EnvelopeShape)
    case UpdateList(items) =>
      match FirstEventsFragment(items)
      case None => Err(JsonDecode)
      case Some(fragment) =>
        match decode(fragment)
        case Malformed => Err(JsonDecode)
        case NoEventsField => Err(EventsNotIterable)
        case EventsField(records) => Ok(seq(|records|, i requires 0 <= i < |records| => convert(records[i])))
  }

  /** Parsing succeeds exactly on a list envelope whose first `events` fragment decodes to a record list, and then maps records one to one. */
  lemma ParseOutcomeOneToOne<R, E>(updates: Updates, decode: string -> Json<R>, convert: R -> E)
    ensures var r := ParseOutcome(updates, decode, convert);
      r.Ok? <==> (updates.UpdateList? && FirstEventsFragment(updates.items).Some?
                  && decode(FirstEventsFragment(updates.items).value).EventsField?)
    ensures var r := ParseOutcome(updates, decode, convert);
      r.Ok? ==> var records := decode(FirstEventsFragment(updates.items).value).records;
        |r.value| == |records| && forall i :: 0 <= i < |records| ==> r.value[i] == convert(records[i])
  {
  }

  /** `parseClassEvents`: picks the events fragment, decodes it, and pushes one event per record. */
  method ParseClassEvents<R, E>(updates: Updates, decode: string -> Json<R>, convert: R -> E)
    returns (r: Result<seq<E>, ParseError>)
    ensures r == ParseOutcome(updates, decode, convert)
  {
    if !updates.UpdateList? {
      return Err(EnvelopeShape);
    }
    var fragment := FirstEventsFragment(updates.items);
    if fragment.None? {
      return Err(JsonDecode);
    }
    var json := decode(fragment.value);
    if json.Malformed? {
      return Err(JsonDecode);
    }
    if json.NoEventsField? {
      return Err(EventsNotIterable);
    }
    var records := json.records;
    var events: seq<E> := [];
    for i := 0 to |records|
      invariant |events| == i
      invariant forall k :: 0 <= k < i ==> events[k] == convert(records[k])
    {
      events := events + [convert(records[i])];
    }
    assert events == seq(|records|, i requires 0 <= i < |records| => convert(records[i]));
    return Ok(events);
  }

  const InvalidMonth: string := "Invalid month"
  const FetchFailed: string := "Failed to fetch class events from DHU Portal."
  const ParseFailed: string := "Failed to parse class events from DHU Portal. Maybe your login is failing."

  predicate ValidMonth(month: int)
  {
    1 <= month <= 12
  }

  /** What fetching one month yields, given the portal's reply to that month's request. */
  function OneMonthResult<R, E>(month: int, reply: PortalReply, decode: string -> Json<R>, convert: R -> E)
    : Result<seq<E>, string>
  {
    if !ValidMonth(month) then Err(InvalidMonth)
    else if reply.Rejected? then Err(reply.message)
    else if !reply.ok then Err(FetchFailed)
    else match ParseOutcome(reply.updates, decode, convert)
      case Err(_) => Err(ParseFailed)
      case Ok(events) => Ok(events)
  }

  /** The four ways a month fails, each with its own message, and the one way it succeeds. */
  lemma OneMonthOutcomes<R, E>(month: int, reply: PortalReply, decode: string -> Json<R>, convert: R -> E)
    ensures var r := OneMonthResult(month, reply, decode, convert);
      && (!ValidMonth(month) ==> r == Err(InvalidMonth))
      && (ValidMonth(month) && reply.Rejected? ==> r == Err(reply.message))
      && (ValidMonth(month) && reply.Answered? && !reply.ok ==> r == Err(FetchFailed))
      && (ValidMonth(month) && reply.Answered? && reply.ok && ParseOutcome(reply.updates, decode, convert).Err? ==>
            r == Err(ParseFailed))
      && (r.Ok? <==> ValidMonth(month) && reply.Answered? && reply.ok && ParseOutcome(reply.updates, decode, convert).Ok?)
  {
  }

  /**
   * `fetchClassEventsOneMonth`: rejects a month outside 1..12 before any request,
   * otherwise sends the month's form for the current year and interprets the reply.
   * `sent` is the form that went out, if one did.
   */
  method FetchClassEventsOneMonth<R, E>(month: int, session: SessionData, currentYear: int, today: string,
                                        utcOffset: int, reply: PortalReply,
                                        decode: string -> Json<R>, convert: R -> E)
    returns (r: Result<seq<E>, string>, sent: Option<seq<Pair>>)
    ensures r == OneMonthResult(month, reply, decode, convert)
    ensures sent.Some? <==> ValidMonth(month)
    ensures sent.Some? ==> sent.value == QueryForm(currentYear, month, today, utcOffset,
                                                   session.rxToken, session.rxLoginKey, session.viewState)
  {
    if month < 1 || month > 12 {
      return Err(InvalidMonth), None;
    }
    var body := GenerateBody(currentYear, month, session, today, utcOffset);
    sent := Some(body);
    if reply.Rejected? {
      return Err(reply.message), sent;
    }
    if !reply.ok {
      return Err(FetchFailed), sent;
    }
    var parsed := ParseClassEvents(reply.updates, decode, convert);
    if parsed.Err? {
      return Err(ParseFailed), sent;
    }
    r := Ok(parsed.value);
  }

  /** The run so far: the events gathered or the first error, and the months requested. */
  type LoopState<E> = (Result<seq<E>, string>, seq<int>)

  /** The month fetch against a given portal: month `m` answered by the reply to request `n`. */
  type MonthFetch<E> = (int, nat) -> Result<seq<E>, string>

  function PortalMonthFetch<R, E>(portal: nat -> PortalReply, decode: string -> Json<R>, convert: R -> E)
    : MonthFetch<E>
  {
    (m: int, n: nat) => OneMonthResult(m, portal(n), decode, convert)
  }

  /** A month outside 1..12 never yields events. */
  ghost predicate RejectsInvalidMonths<E>(fetch: MonthFetch<E>)
  {
    forall m, n :: !ValidMonth(m) ==> fetch(m, n).Err?
  }

  /** The portal fetch refuses a bad month before asking the portal anything. */
  lemma PortalFetchRejectsInvalidMonths<R, E>(portal: nat -> PortalReply, decode: string -> Json<R>, convert: R -> E)
    ensures RejectsInvalidMonths(PortalMonthFetch(portal, decode, convert))
  {
    var fetch := PortalMonthFetch(portal, decode, convert);
    forall m, n | !ValidMonth(m) ensures fetch(m, n).Err? {
      assert fetch(m, n) == OneMonthResult(m, portal(n), decode, convert);
    }
  }

  /** One turn of the month loop: a request goes out only for a month in 1..12. */
  function Step<E>(state: LoopState<E>, m: int, fetch: MonthFetch<E>): LoopState<E>
  {
    if state.0.Err? then state
    else
      var requested := state.1 + (if ValidMonth(m) then [m] else []);
      match fetch(m, |state.1|)
      case Err(e) => (Err(e), requested)
      case Ok(events) => (Ok(state.0.value + events), requested)
  }

  /**
   * The handler's month loop over `months` in order: the concatenated events or
   * the first failure, and the months for which a request went out.
   */
  function MonthLoop<E>(months: seq<int>, fetch: MonthFetch<E>): LoopState<E>
    decreases |months|
  {
    if months == [] then (Ok([]), [])
    else Step(MonthLoop(months[..|months| - 1], fetch), months[|months| - 1], fetch)
  }

  /** Every month's events, month i answered by the i-th request, concatenated in list order. */
  function AllEvents<E>(months: seq<int>, fetch: MonthFetch<E>): seq<E>
    decreases |months|
  {
    if months == [] then []
    else
      var n := |months| - 1;
      AllEvents(months[..n], fetch) + EventsOf(fetch(months[n], n))
  }

  /** The events of a successful month, nothing for a failed one. */
  function EventsOf<E>(r: Result<seq<E>, string>): seq<E>
  {
    if r.Ok? then r.value else []
  }

  /** The run over one more month is one more step. */
  lemma MonthLoopNext<E>(months: seq<int>, i: nat, fetch: MonthFetch<E>)
    requires i < |months|
    ensures MonthLoop(months[..i + 1], fetch) == Step(MonthLoop(months[..i], fetch), months[i], fetch)
  {
    assert months[..i + 1][..i] == months[..i];
  }

  /** Once a month has failed, later months change nothing. */
  lemma {:induction false} MonthLoopStopsAtFailure<E>(xs: seq<int>, ys: seq<int>, fetch: MonthFetch<E>)
    requires MonthLoop(xs, fetch).0.Err?
    ensures MonthLoop(xs + ys, fetch) == MonthLoop(xs, fetch)
    decreases |ys|
  {
    if ys != [] {
      var front := ys[..|ys| - 1];
      MonthLoopStopsAtFailure(xs, front, fetch);
      assert (xs + ys)[..|xs + ys| - 1] == xs + front;
    } else {
      assert xs + ys == xs;
    }
  }

  /**
   * A run that succeeds requested every month, month i by the i-th request,
   * each month succeeded, and the events are all months' events in list order.
   */
  lemma {:induction false} MonthLoopSuccess<E>(months: seq<int>, fetch: MonthFetch<E>)
    requires RejectsInvalidMonths(fetch)
    requires MonthLoop(months, fetch).0.Ok?
    ensures MonthLoop(months, fetch).1 == months
    ensures forall i :: 0 <= i < |months| ==> ValidMonth(months[i]) && fetch(months[i], i).Ok?
    ensures MonthLoop(months, fetch).0.value == AllEvents(months, fetch)
    decreases |months|
  {
    if months != [] {
      var n := |months| - 1;
      var front := months[..n];
      MonthLoopSuccess(front, fetch);
      assert months == front + [months[n]];
    }
  }

  /** Month k is the first failing month of the run, and the run reports exactly its failure. */
  ghost predicate FailsFirstAt<E>(months: seq<int>, fetch: MonthFetch<E>, k: int)
  {
    && 0 <= k < |months|
    && (forall i :: 0 <= i < k ==> fetch(months[i], i).Ok?)
    && fetch(months[k], k).Err?
    && MonthLoop(months, fetch).0 == Err(fetch(months[k], k).error)
    && MonthLoop(months, fetch).1 == months[..k] + (if ValidMonth(months[k]) then [months[k]] else [])
  }

  /**
   * A run that fails stopped at the first failing month k: every earlier month
   * succeeded, the run's error is month k's error, and no month after k was
   * requested (month k itself only when it passed the month check).
   */
  lemma {:induction false} MonthLoopFailure<E>(months: seq<int>, fetch: MonthFetch<E>)
    requires RejectsInvalidMonths(fetch)
    requires MonthLoop(months, fetch).0.Err?
    ensures exists k :: FailsFirstAt(months, fetch, k)
    decreases |months|
  {
    var front := months[..|months| - 1];
    if MonthLoop(front, fetch).0.Err? {
      MonthLoopFailure(front, fetch);
      var k :| FailsFirstAt(front, fetch, k);
      FailsFirstAtExtends(months, fetch, k);
    } else {
      FailsFirstAtLast(months, fetch);
    }
  }

  /** A failure found in all but the last month stays the run's first failure. */
  lemma FailsFirstAtExtends<E>(months: seq<int>, fetch: MonthFetch<E>, k: int)
    requires months != [] && FailsFirstAt(months[..|months| - 1], fetch, k)
    ensures FailsFirstAt(months, fetch, k)
  {
    var n := |months| - 1;
    var front := months[..n];
    assert MonthLoop(months, fetch) == Step(MonthLoop(front, fetch), months[n], fetch);
    assert MonthLoop(months, fetch) == MonthLoop(front, fetch);
    assert front[..k] == months[..k];
    assert forall i :: 0 <= i < k ==> front[i] == months[i];
  }

  /** A run that fails only at its last month fails first there. */
  lemma FailsFirstAtLast<E>(months: seq<int>, fetch: MonthFetch<E>)
    requires RejectsInvalidMonths(fetch)
    requires months != [] && MonthLoop(months[..|months| - 1], fetch).0.Ok?
    requires MonthLoop(months, fetch).0.Err?
    ensures FailsFirstAt(months, fetch, |months| - 1)
  {
    var n := |months| - 1;
    var front := months[..n];
    var prior := MonthLoop(front, fetch);
    assert MonthLoop(months, fetch) == Step(prior, months[n], fetch);
    MonthLoopSuccess(front, fetch);
    assert prior.1 == front && |front| == n;
    var last := fetch(months[n], n);
    assert last.Err?;
    assert MonthLoop(months, fetch) == (Err(last.error), front + (if ValidMonth(months[n]) then [months[n]] else []));
    assert forall i :: 0 <= i < n ==> front[i] == months[i];
  }

  /** One query-string value: missing, a single string, or repeated. */
  datatype QueryValue = Absent | One(text: string) | Many(texts: seq<string>)

  datatype RawQuery = RawQuery(username: QueryValue, password: QueryValue, importRange: QueryValue, importYear: QueryValue)

  datatype QueryParams = QueryParams(username: string, password: string, importRange: string, importYear: string)

  /** The value is falsy in JavaScript: missing, or the empty string. */
  predicate Falsy(v: QueryValue)
  {
    v.Absent? || v == One("")
  }

  /** The 400 message naming the falsy parameters. */
  function MissingMessage(q: RawQuery): string
  {
    "Not enough parameters. Your request is missing "
      + (if Falsy(q.username) then "'username' " else "")
      + (if Falsy(q.password) then "'password' " else "")
      + (if Falsy(q.importRange) then "'importRange' " else "")
      + (if Falsy(q.importYear) then "'importYear' " else "")
      + "."
  }

  /** `urlToQueryParameter`, missing-parameter branch: every parameter must be a single string. */
  function UrlToQueryParameter(q: RawQuery): (r: Result<QueryParams, string>)
    ensures r.Ok? <==> q.username.One? && q.password.One? && q.importRange.One? && q.importYear.One?
    ensures r.Ok? ==> r.value == QueryParams(q.username.text, q.password.text, q.importRange.text, q.importYear.text)
    ensures r.Err? ==> r.error == MissingMessage(q)
  {
    if q.username.One? && q.password.One? && q.importRange.One? && q.importYear.One? then
      Ok(QueryParams(q.username.text, q.password.text, q.importRange.text, q.importYear.text))
    else
      Err(MissingMessage(q))
  }

  /** A repeated parameter is rejected, yet the message names no parameter. */
  lemma MissingMessageQuirks(s: string)
    requires s != ""
    ensures MissingMessage(RawQuery(Many([s, s]), One(s), One(s), One(s)))
            == "Not enough parameters. Your request is missing ."
    ensures UrlToQueryParameter(RawQuery(Many([s, s]), One(s), One(s), One(s))).Err?
  {
    var q := RawQuery(Many([s, s]), One(s), One(s), One(s));
    assert !Falsy(q.username) && !Falsy(q.password) && !Falsy(q.importRange) && !Falsy(q.importYear);
  }

  /** An empty parameter is named as missing just like an absent one. */
  lemma EmptyParameterNamed(s: string)
    requires s != ""
    ensures MissingMessage(RawQuery(One(""), Absent, One(s), One(s)))
            == "Not enough parameters. Your request is missing 'username' 'password' ."
  {
    var q := RawQuery(One(""), Absent, One(s), One(s));
    assert Falsy(q.username) && Falsy(q.password) && !Falsy(q.importRange) && !Falsy(q.importYear);
  }

  datatype Body<E> = ErrorBody(message: string) | Events(events: seq<E>)
  datatype Response<E> = Response(status: int, body: Body<E>)

  /** What the API route produces: a response, or an exception escaping the route. */
  datatype HandlerOutcome<E> = Replied(response: Response<E>) | Crashed(message: string)

  /**
   * `handler`: 405 for anything but GET, 400 when a parameter is missing, an
   * escaping "Login failed" when the portal refuses the login, then the month
   * loop: 200 with every month's events in order, or 500 with the first
   * failing month's message. `loginSent` is the login form posted, if one was;
   * `requested` lists the months sent to the portal.
   * `months` is the import range's month list; `login` is the reply to the
   * login request; `portal(n)` is the reply to the n-th month request.
   */
  method Handler<R, E>(httpMethod: string, query: RawQuery, months: seq<int>, login: LoginResponse,
                       currentYear: int, today: string, utcOffset: int,
                       portal: nat -> PortalReply, decode: string -> Json<R>, convert: R -> E)
    returns (out: HandlerOutcome<E>, loginSent: Option<seq<Pair>>, requested: seq<int>)
    ensures httpMethod != "GET" ==>
      out == Replied(Response(405, ErrorBody("Method Not Allowed"))) && loginSent == None && requested == []
    ensures httpMethod == "GET" && UrlToQueryParameter(query).Err? ==>
      out == Replied(Response(400, ErrorBody(MissingMessage(query)))) && loginSent == None && requested == []
    ensures httpMethod == "GET" && UrlToQueryParameter(query).Ok? ==>
      var p := UrlToQueryParameter(query).value;
      loginSent == Some(LoginForm(p.username, p.password))
    ensures httpMethod == "GET" && UrlToQueryParameter(query).Ok? && login.status != 200 ==>
      out == Crashed(LoginFailed) && requested == []
    ensures httpMethod == "GET" && UrlToQueryParameter(query).Ok? && login.status == 200 ==>
      var run := MonthLoop(months, PortalMonthFetch(portal, decode, convert));
      && requested == run.1
      && out == Replied(if run.0.Ok? then Response(200, Events(run.0.value)) else Response(500, ErrorBody(run.0.error)))
  {
    requested := [];
    if httpMethod != "GET" {
      return Replied(Response(405, ErrorBody("Method Not Allowed"))), None, requested;
    }
    var params := UrlToQueryParameter(query);
    if params.Err? {
      return Replied(Response(400, ErrorBody(params.error))), None, requested;
    }
    var body := GenerateLoginBody(params.value.username, params.value.password);
    loginSent := Some(body);
    var session := GetSessionData(login);
    if session.Err? {
      return Crashed(session.error), loginSent, requested;
    }
    var run;
    run, requested := FetchMonths(months, session.value, currentYear, today, utcOffset, portal, decode, convert);
    if run.Err? {
      return Replied(Response(500, ErrorBody(run.error))), loginSent, requested;
    }
    out := Replied(Response(200, Events(run.value)));
  }

  /**
   * The handler's month loop: one portal request per month, the events
   * appended in month order, stopping at the first month that fails.
   */
  method FetchMonths<R, E>(months: seq<int>, session: SessionData, currentYear: int, today: string, utcOffset: int,
                           portal: nat -> PortalReply, decode: string -> Json<R>, convert: R -> E)
    returns (run: Result<seq<E>, string>, requested: seq<int>)
    ensures (run, requested) == MonthLoop(months, PortalMonthFetch(portal, decode, convert))
  {
    requested := [];
    var fetch := PortalMonthFetch(portal, decode, convert);
    var events: seq<E> := [];
    var i := 0;
    while i < |months|
      invariant 0 <= i <= |months|
      invariant MonthLoop(months[..i], fetch) == (Ok(events), requested)
    {
      MonthLoopNext(months, i, fetch);
      var r, sent := FetchClassEventsOneMonth(months[i], session, currentYear, today, utcOffset,
                                              portal(|requested|), decode, convert);
      assert fetch(months[i], |requested|) == r;
      ghost var before := requested;
      if sent.Some? {
        requested := requested + [months[i]];
      }
      if r.Err? {
        assert requested == before + (if ValidMonth(months[i]) then [months[i]] else []);
        assert Step((Ok(events), before), months[i], fetch) == (Err(r.error), requested);
        MonthLoopStopsAtFailure(months[..i + 1], months[i + 1..], fetch);
        assert months[..i + 1] + months[i + 1..] == months;
        return Err(r.error), requested;
      }
      assert requested == before + (if ValidMonth(months[i]) then [months[i]] else []);
      assert Step((Ok(events), before), months[i], fetch) == (Ok(events + r.value), requested);
      events := events + r.value;
      i := i + 1;
    }
    assert months[..i] == months;
    run := Ok(events);
  }
}
