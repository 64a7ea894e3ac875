/**
 * Helpers shared by the import forms: the range filter that compares whole
 * Unix seconds, the selectable academic years, and the class-event fetch that
 * folds every failure into one message. Date parsing is a parameter
 * (`instantOf`, giving epoch milliseconds) and the quarter bounds are inputs.
 */
module ImportFormCommons {
  import opened Base
  import opened Seqs

  /** A class event as the portal API returns it: title, start date text and CSS class. */
  datatype ClassEvent = ClassEvent(title: string, start: string, className: string)

  /** A date parser: epoch milliseconds of a date text. */
  type InstantOf = string -> int

  /** dayjs `.unix()`: whole seconds, rounded down. */
  function UnixSeconds(ms: int): int
  {
    ms / 1000
  }

  /** The start second lies strictly between the quarter's start and end seconds. */
  predicate StartsWithinSeconds(e: ClassEvent, startMs: int, endMs: int, instantOf: InstantOf)
  {
    var t := UnixSeconds(instantOf(e.start));
    t > UnixSeconds(startMs) && t < UnixSeconds(endMs)
  }

  /**
   * `excludeOutOfImportRange`, second-granularity variant: keeps, in order,
   * exactly the events whose start second lies strictly inside the quarter.
   */
  function ExcludeOutOfImportRangeSeconds(events: seq<ClassEvent>, startMs: int, endMs: int, instantOf: InstantOf)
    : (r: seq<ClassEvent>)
    ensures forall i :: 0 <= i < |r| ==> r[i] in events
    ensures forall i :: 0 <= i < |r| ==>
      UnixSeconds(startMs) < UnixSeconds(instantOf(r[i].start)) < UnixSeconds(endMs)
    ensures forall i :: 0 <= i < |events| && StartsWithinSeconds(events[i], startMs, endMs, instantOf) ==> events[i] in r
  {
    Filter(events, e => StartsWithinSeconds(e, startMs, endMs, instantOf))
  }

  /** The seconds filter keeps an order-preserving subsequence of its input. */
  lemma SecondsFilterIsSubsequence(events: seq<ClassEvent>, startMs: int, endMs: int, instantOf: InstantOf)
    ensures IsSubsequence(ExcludeOutOfImportRangeSeconds(events, startMs, endMs, instantOf), events)
  {
    FilterIsSubsequence(events, e => StartsWithinSeconds(e, startMs, endMs, instantOf));
  }

  /** Applying the seconds filter twice gives what applying it once gives. */
  lemma SecondsFilterIdempotent(events: seq<ClassEvent>, startMs: int, endMs: int, instantOf: InstantOf)
    ensures var once := ExcludeOutOfImportRangeSeconds(events, startMs, endMs, instantOf);
      ExcludeOutOfImportRangeSeconds(once, startMs, endMs, instantOf) == once
  {
    FilterIdempotent(events, e => StartsWithinSeconds(e, startMs, endMs, instantOf));
  }

  /** Reordering the input reorders the output and keeps the same events the same number of times. */
  lemma SecondsFilterCommutesWithPermutation(events: seq<ClassEvent>, shuffled: seq<ClassEvent>,
                                             startMs: int, endMs: int, instantOf: InstantOf)
    requires multiset(events) == multiset(shuffled)
    ensures multiset(ExcludeOutOfImportRangeSeconds(events, startMs, endMs, instantOf))
         == multiset(ExcludeOutOfImportRangeSeconds(shuffled, startMs, endMs, instantOf))
  {
    FilterPermutation(events, shuffled, e => StartsWithinSeconds(e, startMs, endMs, instantOf));
  }

  /** `getSelectableYearList`: last year, this year and next year, in that order. */
  function GetSelectableYearList(currentYear: int): (r: seq<int>)
    ensures |r| == 3
    ensures forall i :: 0 <= i < 3 ==> r[i] == currentYear - 1 + i
  {
    [currentYear - 1, currentYear, currentYear + 1]
  }

  /** What the class-event request produced: no response at all, or a status with a body that may not decode. */
  datatype ClassEventsReply =
    | Unreachable
    | Replied(ok: bool, events: Option<seq<ClassEvent>>)

  const CannotReachPortal: string := "デジキャンに接続できませんでした"

  /**
   * `fetchClassEventList`: the decoded event list of an ok response; a missing
   * response, a non-ok status and an undecodable body all become one message.
   */
  function FetchClassEventList(reply: ClassEventsReply): (r: Result<seq<ClassEvent>, string>)
    ensures r.Ok? <==> reply.Replied? && reply.ok && reply.events.Some?
    ensures r.Ok? ==> r.value == reply.events.value
    ensures r.Err? ==> r.error == CannotReachPortal
  {
    match reply
    case Unreachable => Err(CannotReachPortal)
    case Replied(ok, events) =>
      if !ok then Err(CannotReachPortal)
      else if events.None? then Err(CannotReachPortal)
      else Ok(events.value)
  }
}
