/**
 * The Python back end's term arithmetic: which months a term covers, the
 * whitelist of term identifiers with their fixed date windows, and the
 * endpoint that walks the months, rolling the year over at December, and
 * concatenates what the portal scraper returns for each month.
 * The scraper is a parameter; a failed login is its only modelled exception.
 */
module TermMonths {
  import opened Base
  import opened CivilTime

  /** Python's `range(lo, hi)`: lo, lo+1, ..., hi-1, empty when lo >= hi. */
  function Interval(lo: int, hi: int): (r: seq<int>)
    ensures |r| == if lo < hi then hi - lo else 0
    ensures forall i :: 0 <= i < |r| ==> r[i] == lo + i
    decreases hi - lo
  {
    if lo >= hi then [] else [lo] + Interval(lo + 1, hi)
  }

  /** One more step of a range appends its last value. */
  lemma IntervalSnoc(lo: int, hi: int)
    requires lo <= hi
    ensures Interval(lo, hi + 1) == Interval(lo, hi) + [hi]
  {
    var a, b := Interval(lo, hi + 1), Interval(lo, hi) + [hi];
    assert |a| == |b|;
    forall i | 0 <= i < |a| ensures a[i] == b[i] {
      if i < hi - lo {
        assert b[i] == Interval(lo, hi)[i];
      }
    }
  }

  /** The months `get_month_range` lists, as written. */
  function MonthRange(start: int, end: int): seq<int>
  {
    if start < end then Interval(start, end)
    else Interval(start, 13) + Interval(1, end + 1)
  }

  /**
   * `get_month_range` as written: a plain range when `start < end`, otherwise
   * `start..12` followed by `1..end`, built by appending.
   */
  method GetMonthRange(start: int, end: int) returns (months: seq<int>)
    ensures months == MonthRange(start, end)
  {
    if start < end {
      return Interval(start, end);
    }
    months := AppendWrapped(start, end);
  }

  /** The two append loops of the wrapping branch. */
  method AppendWrapped(start: int, end: int) returns (months: seq<int>)
    ensures months == Interval(start, 13) + Interval(1, end + 1)
  {
    months := [];
    var i := start;
    while i < 13
      invariant start <= i && (i <= 13 || i == start)
      invariant months == Interval(start, i)
      decreases 13 - i
    {
      IntervalSnoc(start, i);
      months := months + [i];
      i := i + 1;
    }
    ghost var head := months;
    assert head == Interval(start, 13);
    i := 1;
    while i < end + 1
      invariant 1 <= i && (i <= end + 1 || i == 1)
      invariant months == head + Interval(1, i)
      decreases end + 1 - i
    {
      IntervalSnoc(1, i);
      months := months + [i];
      i := i + 1;
    }
  }

  /** Each step of `s` goes up by exactly one. */
  predicate StepsUp(s: seq<int>)
  {
    forall i :: 0 < i < |s| ==> s[i] == s[i - 1] + 1
  }

  /** When `start < end` the list runs from `start` up to, but not including, `end`. */
  lemma MonthRangeExcludesEnd(start: int, end: int)
    requires start < end
    ensures var r := MonthRange(start, end);
      && |r| == end - start
      && (forall i :: 0 <= i < |r| ==> r[i] == start + i)
      && end !in r
  {
  }

  /**
   * When the list wraps it runs from `start` to December, then from January up
   * to and including `end`: `13 - start + end` months.
   */
  lemma MonthRangeWrapIncludesEnd(start: int, end: int)
    requires 1 <= end <= start <= 12
    ensures var r := MonthRange(start, end);
      && |r| == 13 - start + end
      && r[..13 - start] == Interval(start, 13)
      && r[13 - start..] == Interval(1, end + 1)
      && r[|r| - 1] == end
  {
    var r := MonthRange(start, end);
    assert r[..13 - start] == Interval(start, 13);
    assert r[13 - start..] == Interval(1, end + 1);
  }

  /**
   * For months in 1..12 every listed month is in 1..12, and the list climbs one
   * month at a time except at a single point where it may wrap.
   */
  lemma MonthRangeShape(start: int, end: int)
    requires 1 <= start <= 12 && 1 <= end <= 12
    ensures var r := MonthRange(start, end);
      && (forall i :: 0 <= i < |r| ==> 1 <= r[i] <= 12)
      && exists w :: 0 <= w <= |r| && StepsUp(r[..w]) && StepsUp(r[w..])
  {
    var r := MonthRange(start, end);
    if start < end {
      assert r[|r|..] == [];
      assert StepsUp(r[..|r|]) && StepsUp(r[|r|..]);
    } else {
      MonthRangeWrapIncludesEnd(start, end);
      assert StepsUp(r[..13 - start]) && StepsUp(r[13 - start..]);
    }
  }

  /**
   * The months a term evidently should cover: from the start month up to and
   * including the end month, wrapping past December.
   */
  function MonthRangeInclusive(start: int, end: int): seq<int>
  {
    if start <= end then Interval(start, end + 1)
    else Interval(start, 13) + Interval(1, end + 1)
  }

  /** The month list with the end month included in both branches. */
  method GetMonthRangeInclusive(start: int, end: int) returns (months: seq<int>)
    ensures months == MonthRangeInclusive(start, end)
  {
    if start <= end {
      return Interval(start, end + 1);
    }
    months := AppendWrapped(start, end);
  }

  /** The month `k` months after (y, m), for m in 1..12. */
  function AddMonths(y: int, m: int, k: int): (int, int)
  {
    (y + (m - 1 + k) / 12, (m - 1 + k) % 12 + 1)
  }

  /** The i-th month of the corrected list is `i` months after `start`. */
  lemma MonthRangeInclusiveIndex(start: int, end: int)
    requires 1 <= start <= 12 && 1 <= end <= 12
    ensures var r := MonthRangeInclusive(start, end);
      && 1 <= |r| <= 12
      && |r| == (if start <= end then end - start + 1 else 13 - start + end)
      && forall i :: 0 <= i < |r| ==> r[i] == (start - 1 + i) % 12 + 1
  {
    var r := MonthRangeInclusive(start, end);
    if start > end {
      forall i | 0 <= i < |r| ensures r[i] == (start - 1 + i) % 12 + 1 {
        if i < 13 - start {
          assert r[i] == Interval(start, 13)[i];
        } else {
          assert r[i] == Interval(1, end + 1)[i - (13 - start)];
        }
      }
    }
  }

  /** The walk's state: the (year, month) pairs so far, `year` and `pre_month`. */
  type WalkState = (seq<(int, int)>, int, int)

  /**
   * The endpoint's walk over the month list: `year` starts at the term's start
   * year and goes up by one whenever a month is smaller than the one before.
   */
  function Walk(months: seq<int>, startYear: int): (w: WalkState)
    ensures |w.0| == |months|
    ensures forall i :: 0 <= i < |months| ==> w.0[i].1 == months[i]
    ensures months == [] ==> w.1 == startYear && w.2 == 0
    ensures months != [] ==> w.2 == months[|months| - 1] && w.1 == w.0[|months| - 1].0
    decreases |months|
  {
    if months == [] then ([], startYear, 0)
    else
      var prior := Walk(months[..|months| - 1], startYear);
      var m := months[|months| - 1];
      var y := if m < prior.2 then prior.1 + 1 else prior.1;
      (prior.0 + [(y, m)], y, m)
  }

  /** The walk of a prefix is the prefix of the walk. */
  lemma {:induction false} WalkPrefix(months: seq<int>, k: nat, startYear: int)
    requires k <= |months|
    ensures Walk(months[..k], startYear) == (Walk(months, startYear).0[..k],
                                              if k == 0 then startYear else Walk(months, startYear).0[k - 1].0,
                                              if k == 0 then 0 else months[k - 1])
    decreases |months|
  {
    if k < |months| {
      var front := months[..|months| - 1];
      WalkPrefix(front, k, startYear);
      assert front[..k] == months[..k];
      assert Walk(months, startYear).0[..k] == Walk(front, startYear).0[..k];
    } else {
      assert months[..k] == months;
      assert Walk(months, startYear).0[..k] == Walk(months, startYear).0;
    }
  }

  /** Within two years of a start month, one more month is the calendar's next month. */
  lemma AddMonthsStep(y: int, m: int, k: int)
    requires 1 <= m <= 12 && 1 <= k && m - 1 + k <= 23
    ensures var prev := AddMonths(y, m, k - 1);
      AddMonths(y, m, k) == if prev.1 == 12 then (prev.0 + 1, 1) else (prev.0, prev.1 + 1)
  {
    var c := m - 1 + k;
    if c < 12 {
      assert c / 12 == 0 && c % 12 == c && (c - 1) / 12 == 0 && (c - 1) % 12 == c - 1;
    } else if c == 12 {
      assert c / 12 == 1 && c % 12 == 0 && (c - 1) / 12 == 0 && (c - 1) % 12 == 11;
    } else {
      assert c / 12 == 1 && c % 12 == c - 12 && (c - 1) / 12 == 1 && (c - 1) % 12 == c - 13;
    }
  }

  /** Fewer than a year after a month lies in the same year or the next. */
  lemma AddMonthsWithinYear(y: int, m: int, k: int)
    requires 1 <= m <= 12 && 0 <= k < 12
    ensures y <= AddMonths(y, m, k).0 <= y + 1
  {
    var c := m - 1 + k;
    if c < 12 {
      assert c / 12 == 0;
    } else {
      assert c / 12 == 1;
    }
  }

  /** One more turn of the walk, taken from the calendar month before, lands on the next calendar month. */
  lemma WalkStepFollowsCalendar(year: int, start: int, k: int, prior: WalkState, m: int)
    requires 1 <= start <= 12 && 2 <= k && start - 1 + (k - 1) <= 23
    requires |prior.0| == k - 1
    requires forall i :: 0 <= i < k - 1 ==> prior.0[i] == AddMonths(year, start, i)
    requires prior.1 == AddMonths(year, start, k - 2).0 && prior.2 == AddMonths(year, start, k - 2).1
    requires m == AddMonths(year, start, k - 1).1
    ensures var y := if m < prior.2 then prior.1 + 1 else prior.1;
      && y == AddMonths(year, start, k - 1).0
      && forall i :: 0 <= i < k ==> (prior.0 + [(y, m)])[i] == AddMonths(year, start, i)
  {
    AddMonthsStep(year, start, k - 1);
  }

  /** Walking a list of consecutive calendar months follows the calendar. */
  lemma {:induction false} CalendarWalk(ms: seq<int>, start: int, year: int)
    requires 1 <= start <= 12 && 1 <= |ms| <= 12
    requires forall i :: 0 <= i < |ms| ==> ms[i] == AddMonths(year, start, i).1
    ensures var w := Walk(ms, year);
      && (forall i :: 0 <= i < |ms| ==> w.0[i] == AddMonths(year, start, i))
      && w.2 == AddMonths(year, start, |ms| - 1).1
      && w.1 == AddMonths(year, start, |ms| - 1).0
    decreases |ms|
  {
    var k := |ms|;
    var front := ms[..k - 1];
    var prior := Walk(front, year);
    if k == 1 {
      assert (start - 1) / 12 == 0 && (start - 1) % 12 == start - 1;
    } else {
      CalendarWalk(front, start, year);
      WalkStepFollowsCalendar(year, start, k, prior, ms[k - 1]);
    }
  }

  /**
   * Walking the corrected list visits consecutive calendar months from the
   * term's start month to its end month: the year goes up by one exactly when
   * the list wraps past December, so it rises by at most one.
   */
  lemma InclusiveWalkFollowsCalendar(start: int, end: int, year: int)
    requires 1 <= start <= 12 && 1 <= end <= 12
    ensures var t := Walk(MonthRangeInclusive(start, end), year).0;
      && 1 <= |t| <= 12
      && (forall i :: 0 <= i < |t| ==> t[i] == AddMonths(year, start, i))
      && (forall i :: 0 <= i < |t| ==> year <= t[i].0 <= year + 1)
      && t[0] == (year, start)
      && t[|t| - 1] == (if start <= end then year else year + 1, end)
  {
    var r := MonthRangeInclusive(start, end);
    MonthRangeInclusiveIndex(start, end);
    forall i | 0 <= i < |r| ensures r[i] == AddMonths(year, start, i).1 {
    }
    CalendarWalk(r, start, year);
    var t := Walk(r, year).0;
    forall i | 0 <= i < |t| ensures year <= t[i].0 <= year + 1 {
      AddMonthsWithinYear(year, start, i);
    }
    assert t[0] == AddMonths(year, start, 0);
    assert (start - 1) / 12 == 0 && (start - 1) % 12 == start - 1;
    assert t[|t| - 1] == AddMonths(year, start, |r| - 1);
    AddMonthsToEnd(year, start, end);
  }

  /** The last month of the corrected list is the end month, a year later when the list wraps. */
  lemma AddMonthsToEnd(year: int, start: int, end: int)
    requires 1 <= start <= 12 && 1 <= end <= 12
    ensures AddMonths(year, start, if start <= end then end - start else 12 - start + end)
         == (if start <= end then year else year + 1, end)
  {
    if start <= end {
      var c := end - 1;
      assert c / 12 == 0 && c % 12 == end - 1;
    } else {
      var c := 11 + end;
      assert c / 12 == 1 && c % 12 == end - 1;
    }
  }

  /**
   * With the list as written, a term whose start month precedes its end month
   * is walked only up to the month before its end month.
   */
  lemma AsWrittenWalkStopsShort(start: int, end: int, year: int)
    requires 1 <= start < end <= 12
    ensures var t := Walk(MonthRange(start, end), year).0;
      && t[|t| - 1] == (year, end - 1)
      && forall i :: 0 <= i < |t| ==> t[i].1 != end
  {
    var r := MonthRange(start, end);
    assert MonthRangeInclusive(start, end - 1) == r;
    InclusiveWalkFollowsCalendar(start, end - 1, year);
    var t := Walk(r, year).0;
    forall i | 0 <= i < |t| ensures t[i].1 != end {
      AddMonthsNoWrap(year, start, i);
    }
  }

  /** Within the start's own year, adding months is plain addition. */
  lemma AddMonthsNoWrap(y: int, m: int, k: int)
    requires 1 <= m && 0 <= k && m - 1 + k < 12
    ensures AddMonths(y, m, k) == (y, m + k)
  {
  }

  /** The term identifiers the endpoint accepts. */
  const ImportRanges: set<string> := {"1q", "2q", "3q", "4q", "1q_and_2q", "3q_and_4q"}

  /** `is_correct_import_range`. */
  predicate IsCorrectImportRange(importRange: string)
  {
    || importRange == "1q"
    || importRange == "2q"
    || importRange == "3q"
    || importRange == "4q"
    || importRange == "1q_and_2q"
    || importRange == "3q_and_4q"
  }

  /** The whitelist accepts exactly the six term identifiers. */
  lemma AcceptsExactlyTheTerms(importRange: string)
    ensures IsCorrectImportRange(importRange) <==> importRange in ImportRanges
  {
  }

  datatype Date = Date(year: int, month: int, day: int)

  predicate ValidDate(d: Date)
  {
    1 <= d.month <= 12 && 1 <= d.day <= DaysInMonth(d.year, d.month)
  }

  /** Calendar order on dates. */
  predicate Before(a: Date, b: Date)
  {
    a.year < b.year || (a.year == b.year && (a.month < b.month || (a.month == b.month && a.day < b.day)))
  }

  /**
   * `get_date_startend`: the fixed window of each accepted identifier; any other
   * identifier falls through to no window.
   */
  function GetDateStartEnd(importRange: string): (r: Option<(Date, Date)>)
    ensures r.Some? <==> IsCorrectImportRange(importRange)
    ensures r.Some? ==> ValidDate(r.value.0) && ValidDate(r.value.1) && Before(r.value.0, r.value.1)
  {
    if importRange == "1q" || importRange == "1q_and_2q" then Some((Date(2022, 4, 1), Date(2022, 6, 4)))
    else if importRange == "2q" then Some((Date(2022, 6, 1), Date(2022, 8, 10)))
    else if importRange == "3q" || importRange == "3q_and_4q" then Some((Date(2022, 9, 20), Date(2022, 11, 30)))
    else if importRange == "4q" then Some((Date(2022, 11, 20), Date(2023, 3, 20)))
    else None
  }

  /**
   * `1q` and `1q_and_2q` share a window, so do `3q` and `3q_and_4q`; only `4q`
   * runs into the next year.
   */
  lemma SharedAndCrossingWindows(importRange: string)
    requires IsCorrectImportRange(importRange)
    ensures GetDateStartEnd("1q") == GetDateStartEnd("1q_and_2q")
    ensures GetDateStartEnd("3q") == GetDateStartEnd("3q_and_4q")
    ensures var w := GetDateStartEnd(importRange).value;
      w.1.year == w.0.year + 1 <==> importRange == "4q"
  {
  }

  /**
   * The third quarter ends on 30 November, yet the month list as written
   * stops at October, so the scraper is never asked for November.
   */
  lemma ThirdQuarterMissesNovember()
    ensures var w := GetDateStartEnd("3q").value;
      && w.1.month == 11
      && MonthRange(w.0.month, w.1.month) == [9, 10]
      && MonthRangeInclusive(w.0.month, w.1.month) == [9, 10, 11]
  {
    assert MonthRange(9, 11) == [9] + Interval(10, 11);
    assert MonthRangeInclusive(9, 11) == [9] + ([10] + Interval(11, 12));
  }

  /** What the scraper reports for one month: its events, or a failed login with its text. */
  datatype ScrapeReply<E> = Scraped(events: seq<E>) | CannotLogin(message: string)

  /** The scraper, called with the credentials, the year and the month. */
  type Scraper<E> = (string, string, int, int) -> ScrapeReply<E>

  /** The endpoint's reply: the event list, or an exception object with status and detail. */
  datatype ApiReply<E> = EventList(events: seq<E>) | ExceptionBody(status: int, detail: string)

  /** The events gathered so far or the failed login's text, and the number of scraper calls. */
  type GatherState<E> = (Result<seq<E>, string>, nat)

  /** Scraping the (year, month) targets in order, stopping at the first failed login. */
  function Gather<E>(targets: seq<(int, int)>, username: string, password: string, scrape: Scraper<E>)
    : (g: GatherState<E>)
    ensures g.1 <= |targets|
    decreases |targets|
  {
    if targets == [] then (Ok([]), 0)
    else
      var prior := Gather(targets[..|targets| - 1], username, password, scrape);
      var t := targets[|targets| - 1];
      if prior.0.Err? then prior
      else match scrape(username, password, t.0, t.1)
        case CannotLogin(msg) => (Err(msg), prior.1 + 1)
        case Scraped(es) => (Ok(prior.0.value + es), prior.1 + 1)
  }

  /** Every target's events in target order. */
  function AllScraped<E>(targets: seq<(int, int)>, username: string, password: string, scrape: Scraper<E>)
    : seq<E>
    decreases |targets|
  {
    if targets == [] then []
    else
      var t := targets[|targets| - 1];
      var r := scrape(username, password, t.0, t.1);
      AllScraped(targets[..|targets| - 1], username, password, scrape) + (if r.Scraped? then r.events else [])
  }

  /** Once a login has failed, later targets change nothing. */
  lemma {:induction false} GatherStopsAtFailure<E>(xs: seq<(int, int)>, ys: seq<(int, int)>,
                                                  username: string, password: string, scrape: Scraper<E>)
    requires Gather(xs, username, password, scrape).0.Err?
    ensures Gather(xs + ys, username, password, scrape) == Gather(xs, username, password, scrape)
    decreases |ys|
  {
    if ys != [] {
      var front := ys[..|ys| - 1];
      GatherStopsAtFailure(xs, front, username, password, scrape);
      assert (xs + ys)[..|xs + ys| - 1] == xs + front;
    } else {
      assert xs + ys == xs;
    }
  }

  /** A successful run called the scraper once per target and concatenated every month's events in order. */
  lemma {:induction false} GatherSuccess<E>(targets: seq<(int, int)>, username: string, password: string,
                                           scrape: Scraper<E>)
    requires Gather(targets, username, password, scrape).0.Ok?
    ensures Gather(targets, username, password, scrape).1 == |targets|
    ensures forall i :: 0 <= i < |targets| ==> scrape(username, password, targets[i].0, targets[i].1).Scraped?
    ensures Gather(targets, username, password, scrape).0.value == AllScraped(targets, username, password, scrape)
    decreases |targets|
  {
    if targets != [] {
      var front := targets[..|targets| - 1];
      GatherSuccess(front, username, password, scrape);
    }
  }

  /** Target k is the first failed login, and the run reports exactly its text after k + 1 calls. */
  ghost predicate LoginFailsFirstAt<E>(targets: seq<(int, int)>, username: string, password: string,
                                      scrape: Scraper<E>, k: int)
  {
    && 0 <= k < |targets|
    && (forall i :: 0 <= i < k ==> scrape(username, password, targets[i].0, targets[i].1).Scraped?)
    && scrape(username, password, targets[k].0, targets[k].1).CannotLogin?
    && Gather(targets, username, password, scrape)
       == (Err(scrape(username, password, targets[k].0, targets[k].1).message), k + 1)
  }

  /** A failed run stopped at its first failed login and reports that login's text. */
  lemma {:induction false} GatherFailure<E>(targets: seq<(int, int)>, username: string, password: string,
                                           scrape: Scraper<E>)
    requires Gather(targets, username, password, scrape).0.Err?
    ensures exists k :: LoginFailsFirstAt(targets, username, password, scrape, k)
    decreases |targets|
  {
    var n := |targets| - 1;
    var front := targets[..n];
    if Gather(front, username, password, scrape).0.Err? {
      GatherFailure(front, username, password, scrape);
      var k :| LoginFailsFirstAt(front, username, password, scrape, k);
      assert LoginFailsFirstAt(targets, username, password, scrape, k);
    } else {
      GatherSuccess(front, username, password, scrape);
      assert LoginFailsFirstAt(targets, username, password, scrape, n);
    }
  }

  /** The (year, month) pairs the endpoint as written scrapes for an accepted term. */
  function WrittenTermTargets(importRange: string): seq<(int, int)>
    requires IsCorrectImportRange(importRange)
  {
    var w := GetDateStartEnd(importRange).value;
    Walk(MonthRange(w.0.month, w.1.month), w.0.year).0
  }

  /** The (year, month) pairs a term evidently should cover: its window's months, end month included. */
  function CorrectedTermTargets(importRange: string): seq<(int, int)>
    requires IsCorrectImportRange(importRange)
  {
    var w := GetDateStartEnd(importRange).value;
    Walk(MonthRangeInclusive(w.0.month, w.1.month), w.0.year).0
  }

  /**
   * As written, every term but `4q` is scraped without its window's last month:
   * the targets are the corrected ones minus the last, and the end month is
   * never among them. For `4q`, whose list wraps, the two agree.
   */
  lemma WrittenTargetsDropEndMonth(importRange: string)
    requires IsCorrectImportRange(importRange)
    ensures importRange == "4q" ==> WrittenTermTargets(importRange) == CorrectedTermTargets(importRange)
    ensures importRange != "4q" ==>
      var w := GetDateStartEnd(importRange).value;
      var full := CorrectedTermTargets(importRange);
      && WrittenTermTargets(importRange) == full[..|full| - 1]
      && (w.1.year, w.1.month) !in WrittenTermTargets(importRange)
  {
    var w := GetDateStartEnd(importRange).value;
    var s, e, y := w.0.month, w.1.month, w.0.year;
    if importRange != "4q" {
      assert s < e && w.1.year == y;
      var months := MonthRangeInclusive(s, e);
      assert months[..|months| - 1] == MonthRange(s, e);
      WalkPrefix(months, |months| - 1, y);
      AsWrittenWalkStopsShort(s, e, y);
    }
  }

  /** For every accepted term, the corrected targets run month by month from the window's start month to its end month. */
  lemma TermTargetsCoverWindow(importRange: string)
    requires IsCorrectImportRange(importRange)
    ensures var w := GetDateStartEnd(importRange).value;
      var t := CorrectedTermTargets(importRange);
      && t[0] == (w.0.year, w.0.month)
      && t[|t| - 1] == (w.1.year, w.1.month)
      && forall i :: 0 <= i < |t| ==> t[i] == AddMonths(w.0.year, w.0.month, i)
  {
    var w := GetDateStartEnd(importRange).value;
    WindowEndYear(importRange);
    WindowWalk(w.0, w.1);
  }

  /** A window ending within a year of its start is walked from its start month to its end month. */
  lemma WindowWalk(s: Date, e: Date)
    requires ValidDate(s) && ValidDate(e)
    requires e.year == if s.month <= e.month then s.year else s.year + 1
    ensures var t := Walk(MonthRangeInclusive(s.month, e.month), s.year).0;
      && t[0] == (s.year, s.month)
      && t[|t| - 1] == (e.year, e.month)
      && forall i :: 0 <= i < |t| ==> t[i] == AddMonths(s.year, s.month, i)
  {
    InclusiveWalkFollowsCalendar(s.month, e.month, s.year);
  }

  /** Every window ends in its start year, or in the next year exactly when its end month comes first. */
  lemma WindowEndYear(importRange: string)
    requires IsCorrectImportRange(importRange)
    ensures var w := GetDateStartEnd(importRange).value;
      w.1.year == if w.0.month <= w.1.month then w.0.year else w.0.year + 1
  {
  }

  /**
   * `get_dhu_event_list` as written: a rejected identifier gets a 400 object
   * before any scraping; otherwise the months of `get_month_range` are walked
   * with year rollover, each month's events appended, and a failed login ends
   * the walk with a 401 object carrying the exception's text. `calls` lists
   * the (year, month) scraped.
   */
  method GetDhuEventList<E>(importRange: string, username: string, password: string, scrape: Scraper<E>)
    returns (reply: ApiReply<E>, calls: seq<(int, int)>)
    ensures !IsCorrectImportRange(importRange) ==>
      reply == ExceptionBody(400, "importRange " + importRange + " is not correct") && calls == []
    ensures IsCorrectImportRange(importRange) ==>
      var g := Gather(WrittenTermTargets(importRange), username, password, scrape);
      && calls == WrittenTermTargets(importRange)[..g.1]
      && reply == (if g.0.Ok? then EventList(g.0.value) else ExceptionBody(401, g.0.error))
  {
    if !IsCorrectImportRange(importRange) {
      return ExceptionBody(400, "importRange " + importRange + " is not correct"), [];
    }
    var window := GetDateStartEnd(importRange).value;
    var start, end := window.0, window.1;
    var months := GetMonthRange(start.month, end.month);
    reply, calls := ScrapeMonths(months, start.year, username, password, scrape);
  }

  /** `get_dhu_event_list` with the month list corrected to include the window's end month. */
  method GetDhuEventListCorrected<E>(importRange: string, username: string, password: string, scrape: Scraper<E>)
    returns (reply: ApiReply<E>, calls: seq<(int, int)>)
    ensures !IsCorrectImportRange(importRange) ==>
      reply == ExceptionBody(400, "importRange " + importRange + " is not correct") && calls == []
    ensures IsCorrectImportRange(importRange) ==>
      var g := Gather(CorrectedTermTargets(importRange), username, password, scrape);
      && calls == CorrectedTermTargets(importRange)[..g.1]
      && reply == (if g.0.Ok? then EventList(g.0.value) else ExceptionBody(401, g.0.error))
  {
    if !IsCorrectImportRange(importRange) {
      return ExceptionBody(400, "importRange " + importRange + " is not correct"), [];
    }
    var window := GetDateStartEnd(importRange).value;
    var start, end := window.0, window.1;
    var months := GetMonthRangeInclusive(start.month, end.month);
    reply, calls := ScrapeMonths(months, start.year, username, password, scrape);
  }

  /** A failed login in a prefix of the walk decides the whole walk's outcome. */
  lemma WalkStopsAtFailure<E>(months: seq<int>, k: nat, startYear: int, username: string, password: string,
                              scrape: Scraper<E>)
    requires k <= |months|
    requires Gather(Walk(months[..k], startYear).0, username, password, scrape).0.Err?
    ensures Walk(months, startYear).0[..k] == Walk(months[..k], startYear).0
    ensures Gather(Walk(months, startYear).0, username, password, scrape)
         == Gather(Walk(months[..k], startYear).0, username, password, scrape)
  {
    WalkPrefix(months, k, startYear);
    var t := Walk(months, startYear).0;
    assert t == t[..k] + t[k..];
    GatherStopsAtFailure(t[..k], t[k..], username, password, scrape);
  }

  /**
   * The endpoint's month loop: `year` starts at `startYear` and goes up when a
   * month is smaller than the previous one; each month's events are appended,
   * and a failed login ends the loop with a 401 object.
   */
  method ScrapeMonths<E>(months: seq<int>, startYear: int, username: string, password: string, scrape: Scraper<E>)
    returns (reply: ApiReply<E>, calls: seq<(int, int)>)
    ensures var targets := Walk(months, startYear).0;
      var g := Gather(targets, username, password, scrape);
      && calls == targets[..g.1]
      && reply == (if g.0.Ok? then EventList(g.0.value) else ExceptionBody(401, g.0.error))
  {
    var events: seq<E> := [];
    var preMonth := 0;
    var year := startYear;
    calls := [];
    for i := 0 to |months|
      invariant Walk(months[..i], startYear) == (calls, year, preMonth)
      invariant Gather(calls, username, password, scrape) == (Ok(events), i)
    {
      var month := months[i];
      if month < preMonth {
        year := year + 1;
      }
      assert months[..i + 1][..i] == months[..i];
      calls := calls + [(year, month)];
      assert calls[..i] == calls[..|calls| - 1];
      assert Walk(months[..i + 1], startYear) == (calls, year, month);
      match scrape(username, password, year, month)
      case CannotLogin(msg) =>
        assert Gather(calls, username, password, scrape) == (Err(msg), i + 1);
        WalkStopsAtFailure(months, i + 1, startYear, username, password, scrape);
        return ExceptionBody(401, msg), calls;
      case Scraped(es) =>
        events := events + es;
        preMonth := month;
    }
    assert months[..|months|] == months;
    reply := EventList(events);
  }
}
