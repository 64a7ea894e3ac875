/**
 * The bulk-delete button: planning lists every calendar's events, keeps those
 * carrying the import marker, counts them and builds one delete URL per kept
 * event; execution sends the deletes in order with a 250 ms wait after each.
 *
 * The provider's replies are inputs (`calendarList`, and `eventsFor(i)` for the
 * i-th calendar); whether a session and a session user exist are flags. The
 * deletes are not awaited, so their replies play no part. `effects` records the
 * deletes sent and the waits, with the status and counter shown during each wait.
 */
module AllDeleteButton {
  import opened Base
  import opened Seqs
  import opened CalendarApi

  /** The button's status. */
  datatype DeleteStatus = Unauthenticated | Ready | GettingCalendar | Deleting

  /** The sign-in status reported by the session provider. */
  datatype AuthStatus = AuthLoading | AuthAuthenticated | AuthUnauthenticated

  /** The reply to one calendar's event listing: an error object, or its events. */
  datatype EventsReply = EventsError(code: int) | EventItems(items: seq<RemoteEvent>)

  /** What execution does: send a delete, or wait while the button shows a status and counter. */
  datatype Effect = Delete(url: string) | Wait(ms: int, shown: DeleteStatus, count: nat)

  /** The button can be pressed. */
  predicate ButtonEnabled(s: DeleteStatus)
  {
    s == Ready
  }

  /** The event was created by the importer: it has a description that mentions the marker. */
  predicate IsCreatedByImport(e: RemoteEvent)
  {
    e.description.Some? && e.description.value != "" && Includes(e.description.value, CreatedByMarker)
  }

  /** The events of one calendar to delete: exactly those created by the importer, in listing order. */
  function KeepCreated(items: seq<RemoteEvent>): (r: seq<RemoteEvent>)
    ensures forall i :: 0 <= i < |r| ==> r[i] in items && IsCreatedByImport(r[i])
    ensures forall i :: 0 <= i < |items| && IsCreatedByImport(items[i]) ==> items[i] in r
  {
    Filter(items, IsCreatedByImport)
  }

  /** A map entry: a calendar id and the events to delete from it. */
  type Entry = (string, seq<RemoteEvent>)

  /** `key` has an entry. */
  predicate HasKey(entries: seq<Entry>, key: string)
  {
    exists j :: 0 <= j < |entries| && entries[j].0 == key
  }

  /** `Map.set`: replaces the value of an existing key in place, else appends a new entry. */
  function MapSet(entries: seq<Entry>, key: string, value: seq<RemoteEvent>): (r: seq<Entry>)
    ensures HasKey(entries, key) ==> |r| == |entries|
    ensures HasKey(entries, key) ==>
      forall j :: 0 <= j < |r| ==> r[j] == if entries[j].0 == key then (key, value) else entries[j]
    ensures !HasKey(entries, key) ==> r == entries + [(key, value)]
  {
    if HasKey(entries, key) then
      seq(|entries|, j requires 0 <= j < |entries| => if entries[j].0 == key then (key, value) else entries[j])
    else entries + [(key, value)]
  }

  /** The map after the first `n` calendars: calendars whose listing failed are skipped. */
  function PlanAfter(calendars: seq<string>, eventsFor: nat -> EventsReply, n: nat): seq<Entry>
    requires n <= |calendars|
  {
    if n == 0 then []
    else
      var prior := PlanAfter(calendars, eventsFor, n - 1);
      match eventsFor(n - 1)
      case EventsError(_) => prior
      case EventItems(items) => MapSet(prior, calendars[n - 1], KeepCreated(items))
  }

  function Plan(calendars: seq<string>, eventsFor: nat -> EventsReply): seq<Entry>
  {
    PlanAfter(calendars, eventsFor, |calendars|)
  }

  /** The calendar ids are pairwise distinct. */
  predicate DistinctIds(calendars: seq<string>)
  {
    forall i, j :: 0 <= i < j < |calendars| ==> calendars[i] != calendars[j]
  }

  /**
   * The plan read as a list: for each of the first `n` calendars in order whose
   * listing succeeded, its id and its marked events.
   */
  function PlanList(calendars: seq<string>, eventsFor: nat -> EventsReply, n: nat): (r: seq<Entry>)
    requires n <= |calendars|
    ensures forall j :: 0 <= j < |r| ==> exists i :: 0 <= i < n && calendars[i] == r[j].0
  {
    if n == 0 then []
    else
      var prior := PlanList(calendars, eventsFor, n - 1);
      var r := match eventsFor(n - 1)
        case EventsError(_) => prior
        case EventItems(items) => prior + [(calendars[n - 1], KeepCreated(items))];
      assert forall j :: 0 <= j < |prior| ==> r[j] == prior[j];
      r
  }

  /**
   * With distinct calendar ids the map never overwrites an entry: the plan is
   * the successful calendars' marked events in calendar order, and a calendar
   * whose listing failed gets no entry.
   */
  lemma {:induction false} PlanIsList(calendars: seq<string>, eventsFor: nat -> EventsReply, n: nat)
    requires n <= |calendars| && DistinctIds(calendars)
    ensures PlanAfter(calendars, eventsFor, n) == PlanList(calendars, eventsFor, n)
  {
    if n > 0 {
      PlanIsList(calendars, eventsFor, n - 1);
    }
  }

  /** A calendar whose listing succeeded has its marked events in the list plan. */
  lemma {:induction false} PlanListHasSucceeded(calendars: seq<string>, eventsFor: nat -> EventsReply, n: nat, i: nat)
    requires n <= |calendars| && i < n && eventsFor(i).EventItems?
    ensures (calendars[i], KeepCreated(eventsFor(i).items)) in PlanList(calendars, eventsFor, n)
  {
    var prior := PlanList(calendars, eventsFor, n - 1);
    if i < n - 1 {
      PlanListHasSucceeded(calendars, eventsFor, n - 1, i);
    } else {
      assert PlanList(calendars, eventsFor, n)[|prior|] == (calendars[i], KeepCreated(eventsFor(i).items));
    }
  }

  /** A calendar whose listing failed has no entry in the list plan, given distinct ids. */
  lemma {:induction false} PlanListOmitsFailed(calendars: seq<string>, eventsFor: nat -> EventsReply, n: nat, i: nat)
    requires n <= |calendars| && DistinctIds(calendars) && i < n && eventsFor(i).EventsError?
    ensures !HasKey(PlanList(calendars, eventsFor, n), calendars[i])
  {
    var prior := PlanList(calendars, eventsFor, n - 1);
    if i < n - 1 {
      PlanListOmitsFailed(calendars, eventsFor, n - 1, i);
      if eventsFor(n - 1).EventItems? {
        var plan := PlanList(calendars, eventsFor, n);
        assert plan == prior + [(calendars[n - 1], KeepCreated(eventsFor(n - 1).items))];
        assert calendars[n - 1] != calendars[i];
      }
    }
  }

  /** The number of events in the first `n` entries. */
  function CountOf(entries: seq<Entry>, n: nat): nat
    requires n <= |entries|
  {
    if n == 0 then 0 else CountOf(entries, n - 1) + |entries[n - 1].1|
  }

  /** The delete URL of one event. */
  function DeleteUrl(calendarId: string, eventId: string): string
  {
    "https://www.googleapis.com/calendar/v3/calendars/" + calendarId + "/events/" + eventId
  }

  /** The delete URLs of one entry's events, in order. */
  function EntryUrls(e: Entry): (r: seq<string>)
    ensures |r| == |e.1|
    ensures forall j :: 0 <= j < |r| ==> r[j] == DeleteUrl(e.0, e.1[j].id)
  {
    seq(|e.1|, j requires 0 <= j < |e.1| => DeleteUrl(e.0, e.1[j].id))
  }

  /** The delete URLs of the first `n` entries, by entry then by event. */
  function UrlsOf(entries: seq<Entry>, n: nat): seq<string>
    requires n <= |entries|
  {
    if n == 0 then [] else UrlsOf(entries, n - 1) + EntryUrls(entries[n - 1])
  }

  /** There is one URL per counted event. */
  lemma {:induction false} UrlsMatchCount(entries: seq<Entry>, n: nat)
    requires n <= |entries|
    ensures |UrlsOf(entries, n)| == CountOf(entries, n)
  {
    if n > 0 {
      UrlsMatchCount(entries, n - 1);
    }
  }

  /** The URL list is the entries' URL lists concatenated in entry order. */
  lemma {:induction false} UrlsConcatenateEntries(entries: seq<Entry>, n: nat)
    requires n <= |entries|
    ensures UrlsOf(entries, n) == Flatten(seq(n, j requires 0 <= j < n => EntryUrls(entries[j])))
    ensures CountOf(entries, n) == TotalLength(seq(n, j requires 0 <= j < n => entries[j].1))
  {
    if n > 0 {
      UrlsConcatenateEntries(entries, n - 1);
      var urls := seq(n - 1, j requires 0 <= j < n - 1 => EntryUrls(entries[j]));
      var events := seq(n - 1, j requires 0 <= j < n - 1 => entries[j].1);
      assert seq(n, j requires 0 <= j < n => EntryUrls(entries[j])) == urls + [EntryUrls(entries[n - 1])];
      assert seq(n, j requires 0 <= j < n => entries[j].1) == events + [entries[n - 1].1];
      FlattenSnoc(urls, EntryUrls(entries[n - 1]));
      FlattenSnoc(events, entries[n - 1].1);
    }
  }

  /** The effects of deleting the first `n` URLs: a delete, then a wait showing `shown` and the count so far. */
  function DeleteLog(urls: seq<string>, shown: DeleteStatus, n: nat): seq<Effect>
    requires n <= |urls|
  {
    if n == 0 then [] else DeleteLog(urls, shown, n - 1) + [Delete(urls[n - 1]), Wait(250, shown, n)]
  }

  /** Deletes go out in list order, each followed by a 250 ms wait, the last one included. */
  lemma {:induction false} DeleteLogShape(urls: seq<string>, shown: DeleteStatus, n: nat)
    requires n <= |urls|
    ensures |DeleteLog(urls, shown, n)| == 2 * n
    ensures forall j :: 0 <= j < n ==> DeleteLog(urls, shown, n)[2 * j] == Delete(urls[j])
    ensures forall j :: 0 <= j < n ==> DeleteLog(urls, shown, n)[2 * j + 1] == Wait(250, shown, j + 1)
  {
    if n > 0 {
      DeleteLogShape(urls, shown, n - 1);
    }
  }

  /** As written, the button is enabled throughout the deletes and never shows the deleting status. */
  lemma ButtonEnabledWhileDeleting(urls: seq<string>)
    ensures var log := DeleteLog(urls, Ready, |urls|);
      forall j :: 0 <= j < |log| && log[j].Wait? ==> ButtonEnabled(log[j].shown) && log[j].shown != Deleting
    ensures urls != [] ==> DeleteLog(urls, Ready, |urls|)[1] == Wait(250, Ready, 1)
  {
    DeleteLogShape(urls, Ready, |urls|);
    var log := DeleteLog(urls, Ready, |urls|);
    if urls != [] {
      assert log[2 * 0 + 1] == Wait(250, Ready, 0 + 1);
    }
    forall j | 0 <= j < |log| ensures log[j].Wait? ==> log[j].shown == Ready {
      if j % 2 == 0 {
        assert log[2 * (j / 2)] == Delete(urls[j / 2]);
      } else {
        assert log[2 * (j / 2) + 1] == Wait(250, Ready, j / 2 + 1);
      }
    }
  }

  /** With the status kept at deleting, the button stays disabled during every wait. */
  lemma ButtonDisabledWhileDeleting(urls: seq<string>)
    ensures var log := DeleteLog(urls, Deleting, |urls|);
      forall j :: 0 <= j < |log| && log[j].Wait? ==> !ButtonEnabled(log[j].shown)
  {
    DeleteLogShape(urls, Deleting, |urls|);
    var log := DeleteLog(urls, Deleting, |urls|);
    forall j | 0 <= j < |log| ensures log[j].Wait? ==> log[j].shown == Deleting {
      if j % 2 == 0 {
        assert log[2 * (j / 2)] == Delete(urls[j / 2]);
      } else {
        assert log[2 * (j / 2) + 1] == Wait(250, Deleting, j / 2 + 1);
      }
    }
  }

  class Button {
    var isShowDialog: bool
    var deleteEventCount: nat
    var deleteStatus: DeleteStatus
    var deleteCount: nat
    var deleteUrlList: seq<string>
    var effects: seq<Effect>

    constructor()
      ensures !isShowDialog && deleteEventCount == 0 && deleteStatus == Unauthenticated
      ensures deleteCount == 0 && deleteUrlList == [] && effects == []
    {
      isShowDialog := false;
      deleteEventCount := 0;
      deleteStatus := Unauthenticated;
      deleteCount := 0;
      deleteUrlList := [];
      effects := [];
    }

    /** The sign-in effect: unauthenticated, or ready for any other sign-in status. */
    method OnAuthStatus(auth: AuthStatus)
      modifies this
      ensures deleteStatus == if auth == AuthUnauthenticated then Unauthenticated else Ready
      ensures isShowDialog == old(isShowDialog) && deleteEventCount == old(deleteEventCount)
      ensures deleteCount == old(deleteCount) && deleteUrlList == old(deleteUrlList) && effects == old(effects)
    {
      if auth == AuthUnauthenticated {
        deleteStatus := Unauthenticated;
      } else {
        deleteStatus := Ready;
      }
    }

    /**
     * `onAllDeleteClick`: enters the calendar search, empties the URL list and,
     * with a session user, lists every calendar's events (`listed` names them),
     * keeps the marked ones per calendar, records their count and their delete
     * URLs and opens the dialog. Without a user, or when the calendar list does
     * not arrive (`calendarList` is `None`), it stops there, still searching.
     */
    method OnAllDeleteClick(hasUser: bool, calendarList: Option<seq<string>>, eventsFor: nat -> EventsReply)
      returns (listed: seq<string>)
      modifies this
      ensures deleteStatus == GettingCalendar
      ensures deleteCount == old(deleteCount) && effects == old(effects)
      ensures !(hasUser && calendarList.Some?) ==>
        listed == [] && deleteUrlList == []
        && isShowDialog == old(isShowDialog) && deleteEventCount == old(deleteEventCount)
      ensures hasUser && calendarList.Some? ==>
        var plan := Plan(calendarList.value, eventsFor);
        && listed == calendarList.value
        && deleteEventCount == CountOf(plan, |plan|)
        && deleteUrlList == UrlsOf(plan, |plan|)
        && isShowDialog
    {
      deleteStatus := GettingCalendar;
      deleteUrlList := [];
      if !hasUser || calendarList.None? {
        return [];
      }
      var plan;
      plan, listed := ListCalendars(calendarList.value, eventsFor);
      deleteEventCount := CountEvents(plan);
      deleteUrlList := CollectUrls(plan);
      isShowDialog := true;
    }

    /**
     * The listing loop of `onAllDeleteClick`: one events request per calendar
     * in order; a failed listing is skipped, a successful one sets that
     * calendar's entry to its marked events.
     */
    method ListCalendars(calendars: seq<string>, eventsFor: nat -> EventsReply)
      returns (plan: seq<Entry>, listed: seq<string>)
      ensures plan == Plan(calendars, eventsFor) && listed == calendars
    {
      plan := [];
      listed := [];
      for i := 0 to |calendars|
        invariant plan == PlanAfter(calendars, eventsFor, i)
        invariant listed == calendars[..i]
      {
        listed := listed + [calendars[i]];
        var res := eventsFor(i);
        if res.EventsError? {
          continue;
        }
        plan := MapSet(plan, calendars[i], KeepCreated(res.items));
      }
      assert listed == calendars;
    }

    /** The counting loop of `onAllDeleteClick`: the number of planned deletions. */
    method CountEvents(plan: seq<Entry>) returns (total: nat)
      ensures total == CountOf(plan, |plan|)
    {
      total := 0;
      for j := 0 to |plan|
        invariant total == CountOf(plan, j)
      {
        total := total + |plan[j].1|;
      }
    }

    /** The URL loops of `onAllDeleteClick`: one delete URL per planned event, entry by entry. */
    method CollectUrls(plan: seq<Entry>) returns (urls: seq<string>)
      ensures urls == UrlsOf(plan, |plan|)
    {
      urls := [];
      for j := 0 to |plan|
        invariant urls == UrlsOf(plan, j)
      {
        var k := plan[j].0;
        var events := plan[j].1;
        for e := 0 to |events|
          invariant urls == UrlsOf(plan, j) + EntryUrls(plan[j])[..e]
        {
          urls := urls + [DeleteUrl(k, events[e].id)];
          assert EntryUrls(plan[j])[..e + 1] == EntryUrls(plan[j])[..e] + [DeleteUrl(k, events[e].id)];
        }
        assert EntryUrls(plan[j])[..|events|] == EntryUrls(plan[j]);
      }
    }

    /** `handleClose`: closes the dialog and makes the button ready. */
    method HandleClose()
      modifies this
      ensures !isShowDialog && deleteStatus == Ready
      ensures deleteEventCount == old(deleteEventCount) && deleteCount == old(deleteCount)
      ensures deleteUrlList == old(deleteUrlList) && effects == old(effects)
    {
      isShowDialog := false;
      deleteStatus := Ready;
    }

    /**
     * `allDelete` as written: sets the deleting status and zeroes the counter,
     * then closes the dialog, which already makes the button ready; with a
     * session it sends one delete per URL in order, counting each one whatever
     * its outcome and waiting 250 ms after it.
     */
    method AllDelete(hasSession: bool)
      modifies this
      ensures !isShowDialog && deleteStatus == Ready
      ensures deleteEventCount == old(deleteEventCount) && deleteUrlList == old(deleteUrlList)
      ensures hasSession ==>
        deleteCount == |deleteUrlList| && effects == old(effects) + DeleteLog(deleteUrlList, Ready, |deleteUrlList|)
      ensures !hasSession ==> deleteCount == 0 && effects == old(effects)
      ensures forall j :: |old(effects)| <= j < |effects| && effects[j].Wait? ==> ButtonEnabled(effects[j].shown)
    {
      ghost var before := effects;
      isShowDialog := false;
      deleteStatus := Deleting;
      deleteCount := 0;
      HandleClose();
      if !hasSession {
        return;
      }
      RunDeletes();
      deleteStatus := Ready;
      ButtonEnabledWhileDeleting(deleteUrlList);
      ghost var log := DeleteLog(deleteUrlList, Ready, |deleteUrlList|);
      assert forall j :: |before| <= j < |effects| ==> effects[j] == log[j - |before|];
    }

    /**
     * `allDelete` with the dialog closed but the status kept at deleting until
     * the last wait is over, so the button stays disabled while deletes run.
     */
    method AllDeleteKeepingStatus(hasSession: bool)
      modifies this
      ensures !isShowDialog && deleteStatus == Ready
      ensures deleteEventCount == old(deleteEventCount) && deleteUrlList == old(deleteUrlList)
      ensures hasSession ==>
        deleteCount == |deleteUrlList| && effects == old(effects) + DeleteLog(deleteUrlList, Deleting, |deleteUrlList|)
      ensures !hasSession ==> deleteCount == 0 && effects == old(effects)
      ensures forall j :: |old(effects)| <= j < |effects| && effects[j].Wait? ==> !ButtonEnabled(effects[j].shown)
    {
      ghost var before := effects;
      isShowDialog := false;
      deleteStatus := Deleting;
      deleteCount := 0;
      if hasSession {
        RunDeletes();
        ButtonDisabledWhileDeleting(deleteUrlList);
        ghost var log := DeleteLog(deleteUrlList, Deleting, |deleteUrlList|);
        assert forall j :: |before| <= j < |effects| ==> effects[j] == log[j - |before|];
      }
      HandleClose();
    }

    /** The delete loop: one delete per URL, the counter advanced, then a wait showing the current status. */
    method RunDeletes()
      modifies this
      requires deleteCount == 0
      ensures deleteCount == |deleteUrlList|
      ensures effects == old(effects) + DeleteLog(deleteUrlList, deleteStatus, |deleteUrlList|)
      ensures isShowDialog == old(isShowDialog) && deleteStatus == old(deleteStatus)
      ensures deleteEventCount == old(deleteEventCount) && deleteUrlList == old(deleteUrlList)
    {
      for i := 0 to |deleteUrlList|
        invariant deleteEventCount == old(deleteEventCount) && deleteUrlList == old(deleteUrlList)
        invariant isShowDialog == old(isShowDialog) && deleteStatus == old(deleteStatus)
        invariant deleteCount == i
        invariant effects == old(effects) + DeleteLog(deleteUrlList, deleteStatus, i)
      {
        effects := effects + [Delete(deleteUrlList[i])];
        deleteCount := deleteCount + 1;
        effects := effects + [Wait(250, deleteStatus, deleteCount)];
      }
    }
  }
}
