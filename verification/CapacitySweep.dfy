/**
 * The grouped event sweep of enforce_branch_input_capacity, and the proof that it answers the
 * question it stands in for: is there a day on which too many intervals are active at once,
 * and which is the first?
 */
module CapacitySweep {
  import opened Base

  /** Status is one shared payroll-input concept and uses one slot. */
  const STATUS_CONCEPT_COUNT := 1

  /** One row of active_intervals: active on every day d with starts <= d < endsAfter. */
  datatype Interval = Interval(starts: Date, endsAfter: Option<Date>)

  datatype Event = Event(date: Date, delta: int)

  datatype Excess = Excess(date: Date, count: int)

  predicate Proper(iv: Interval) {
    iv.endsAfter.Some? ==> iv.starts < iv.endsAfter.value
  }

  predicate AllProper(ivs: seq<Interval>) {
    forall i :: 0 <= i < |ivs| ==> Proper(ivs[i])
  }

  predicate ActiveOn(iv: Interval, d: Date) {
    iv.starts <= d && (iv.endsAfter.None? || d < iv.endsAfter.value)
  }

  /** The simple form: how many intervals are active on one day. */
  function CountOn(ivs: seq<Interval>, d: Date): int {
    if ivs == [] then 0
    else (if ActiveOn(ivs[0], d) then 1 else 0) + CountOn(ivs[1..], d)
  }

  // ----- the query, common table expression by common table expression -----

  function StartEvents(ivs: seq<Interval>): seq<Event> {
    if ivs == [] then [] else [Event(ivs[0].starts, 1)] + StartEvents(ivs[1..])
  }

  function EndEvents(ivs: seq<Interval>): seq<Event> {
    if ivs == [] then []
    else (if ivs[0].endsAfter.Some? then [Event(ivs[0].endsAfter.value, -1)] else [])
         + EndEvents(ivs[1..])
  }

  /** events: the UNION ALL of starts and ends. */
  function Events(ivs: seq<Interval>): seq<Event> {
    StartEvents(ivs) + EndEvents(ivs)
  }

  /** sum(delta) of one GROUP BY event_date group. */
  function DeltaOn(events: seq<Event>, d: Date): int {
    if events == [] then 0
    else (if events[0].date == d then events[0].delta else 0) + DeltaOn(events[1..], d)
  }

  function InsertDate(dates: seq<Date>, d: Date): seq<Date> {
    if dates == [] then [d]
    else if d < dates[0] then [d] + dates
    else if d == dates[0] then dates
    else [dates[0]] + InsertDate(dates[1..], d)
  }

  /** The distinct event dates in ascending order (the groups, ORDER BY event_date). */
  function EventDates(events: seq<Event>): seq<Date> {
    if events == [] then [] else InsertDate(EventDates(events[1..]), events[0].date)
  }

  /** timeline: the running total of the grouped deltas plus the Status concept. */
  function Timeline(dates: seq<Date>, events: seq<Event>, total: int): seq<Excess> {
    if dates == [] then []
    else
      var running := total + DeltaOn(events, dates[0]);
      [Excess(dates[0], running + STATUS_CONCEPT_COUNT)] + Timeline(dates[1..], events, running)
  }

  /** WHERE concept_count > limit ORDER BY event_date LIMIT 1. */
  function FirstOver(timeline: seq<Excess>, limit: int): Option<Excess> {
    if timeline == [] then None
    else if timeline[0].count > limit then Some(timeline[0])
    else FirstOver(timeline[1..], limit)
  }

  function Sweep(ivs: seq<Interval>, limit: int): Option<Excess> {
    FirstOver(Timeline(EventDates(Events(ivs)), Events(ivs), 0), limit)
  }

  // ----- running totals are pointwise counts -----

  /** The sum of all deltas dated d or earlier. */
  ghost function SumUpTo(events: seq<Event>, d: Date): int {
    if events == [] then 0
    else (if events[0].date <= d then events[0].delta else 0) + SumUpTo(events[1..], d)
  }

  lemma {:induction false} SumUpToConcat(a: seq<Event>, b: seq<Event>, d: Date)
    ensures SumUpTo(a + b, d) == SumUpTo(a, d) + SumUpTo(b, d)
  {
    if a == [] {
      assert a + b == b;
    } else {
      assert (a + b)[1..] == a[1..] + b;
      SumUpToConcat(a[1..], b, d);
    }
  }

  /** Starts minus ends up to a day is the number of intervals active on that day. */
  lemma {:induction false} SumUpToIsCount(ivs: seq<Interval>, d: Date)
    requires AllProper(ivs)
    ensures SumUpTo(Events(ivs), d) == CountOn(ivs, d)
  {
    SumUpToConcat(StartEvents(ivs), EndEvents(ivs), d);
    if ivs != [] {
      var iv, rest := ivs[0], ivs[1..];
      SumUpToIsCount(rest, d);
      SumUpToConcat(StartEvents(rest), EndEvents(rest), d);
      SumUpToConcat([Event(iv.starts, 1)], StartEvents(rest), d);
      if iv.endsAfter.Some? {
        SumUpToConcat([Event(iv.endsAfter.value, -1)], EndEvents(rest), d);
      } else {
        assert [] + EndEvents(rest) == EndEvents(rest);
      }
    }
  }

  lemma {:induction false} InsertDateProps(dates: seq<Date>, d: Date)
    requires Ascending(dates)
    ensures Ascending(InsertDate(dates, d))
    ensures forall x :: x in InsertDate(dates, d) <==> x == d || x in dates
  {
    if dates != [] && dates[0] < d {
      InsertDateProps(dates[1..], d);
      var rest := InsertDate(dates[1..], d);
      forall j | 0 <= j < |rest| ensures dates[0] < rest[j] {
        assert rest[j] in rest;
      }
      assert dates == [dates[0]] + dates[1..];
    }
  }

  lemma {:induction false} EventDatesProps(events: seq<Event>)
    ensures Ascending(EventDates(events))
    ensures forall x :: x in EventDates(events) <==> exists i :: 0 <= i < |events| && events[i].date == x
  {
    if events != [] {
      EventDatesProps(events[1..]);
      InsertDateProps(EventDates(events[1..]), events[0].date);
      forall x ensures x in EventDates(events) <==> exists i :: 0 <= i < |events| && events[i].date == x {
        if i :| 0 <= i < |events| && events[i].date == x {
          assert i > 0 ==> events[1..][i - 1].date == x;
        }
        if x in EventDates(events[1..]) {
          var i :| 0 <= i < |events[1..]| && events[1..][i].date == x;
          assert events[i + 1].date == x;
        }
      }
    }
  }

  /** With no event dated in (lo, d), the total up to d is the total up to lo plus the group of d. */
  lemma {:induction false} SumStep(events: seq<Event>, lo: Date, d: Date)
    requires lo < d
    requires forall i :: 0 <= i < |events| ==> events[i].date <= lo || d <= events[i].date
    ensures SumUpTo(events, d) == SumUpTo(events, lo) + DeltaOn(events, d)
  {
    if events != [] {
      assert forall i :: 0 <= i < |events[1..]| ==> events[1..][i] == events[i + 1];
      SumStep(events[1..], lo, d);
    }
  }

  /** Without an event dated in (lo, d] the total does not move. */
  lemma {:induction false} SumConstant(events: seq<Event>, lo: Date, d: Date)
    requires lo <= d
    requires forall i :: 0 <= i < |events| ==> events[i].date <= lo || d < events[i].date
    ensures SumUpTo(events, d) == SumUpTo(events, lo)
  {
    if events != [] {
      assert forall i :: 0 <= i < |events[1..]| ==> events[1..][i] == events[i + 1];
      SumConstant(events[1..], lo, d);
    }
  }

  lemma {:induction false} SumBeforeAll(events: seq<Event>, d: Date)
    requires forall i :: 0 <= i < |events| ==> d < events[i].date
    ensures SumUpTo(events, d) == 0
  {
    if events != [] {
      assert forall i :: 0 <= i < |events[1..]| ==> events[1..][i] == events[i + 1];
      SumBeforeAll(events[1..], d);
    }
  }

  ghost predicate Within(events: seq<Event>, limit: int, d: Date) {
    SumUpTo(events, d) + STATUS_CONCEPT_COUNT <= limit
  }

  /**
   * Searching the timeline from the k-th event date on, when the day before is within the
   * limit: the first row over the limit is the first day over the limit.
   */
  lemma {:induction false} TimelineFindsFirst(
      events: seq<Event>, dates: seq<Date>, before: Date, limit: int)
    requires Ascending(dates) && Within(events, limit, before)
    requires forall i :: 0 <= i < |dates| ==> before < dates[i]
    requires forall i :: 0 <= i < |events| ==> events[i].date <= before || events[i].date in dates
    ensures match FirstOver(Timeline(dates, events, SumUpTo(events, before)), limit)
            case None => forall d :: before < d ==> Within(events, limit, d)
            case Some(e) => before < e.date
                            && e.count == SumUpTo(events, e.date) + STATUS_CONCEPT_COUNT > limit
                            && forall d :: before < d < e.date ==> Within(events, limit, d)
    decreases |dates|
  {
    if dates == [] {
      forall d | before < d ensures Within(events, limit, d) {
        SumConstant(events, before, d);
      }
    } else {
      var first := dates[0];
      assert dates == [first] + dates[1..];
      SumStep(events, before, first);
      forall d | before < d < first ensures Within(events, limit, d) {
        SumConstant(events, before, d);
      }
      if Within(events, limit, first) {
        TimelineFindsFirst(events, dates[1..], first, limit);
      }
    }
  }

  predicate CountWithin(ivs: seq<Interval>, limit: int, d: Date) {
    CountOn(ivs, d) + STATUS_CONCEPT_COUNT <= limit
  }

  /**
   * The sweep equals the pointwise count. For a positive limit it returns no row exactly when
   * every day is within the limit; otherwise it returns the earliest day over the limit,
   * with the exact number of concepts on that day.
   */
  lemma {:induction false} SweepIsPointwise(ivs: seq<Interval>, limit: int)
    requires AllProper(ivs) && limit > 0
    ensures Sweep(ivs, limit).None? <==> forall d :: CountWithin(ivs, limit, d)
    ensures Sweep(ivs, limit).Some? ==>
              var e := Sweep(ivs, limit).value;
              && e.count == CountOn(ivs, e.date) + STATUS_CONCEPT_COUNT
              && !CountWithin(ivs, limit, e.date)
              && forall d :: d < e.date ==> CountWithin(ivs, limit, d)
  {
    var events := Events(ivs);
    var dates := EventDates(events);
    EventDatesProps(events);
    var before := if dates == [] then 0 else dates[0] - 1;
    forall i | 0 <= i < |events| ensures events[i].date in dates {}
    SumBeforeAll(events, before);
    TimelineFindsFirst(events, dates, before, limit);
    forall d ensures Within(events, limit, d) <==> CountWithin(ivs, limit, d) {
      SumUpToIsCount(ivs, d);
    }
    forall d | d <= before ensures CountWithin(ivs, limit, d) {
      SumUpToIsCount(ivs, d);
      SumBeforeAll(events, d);
    }
    if Sweep(ivs, limit).Some? {
      var e := Sweep(ivs, limit).value;
      SumUpToIsCount(ivs, e.date);
      assert !CountWithin(ivs, limit, e.date);
    }
  }

  /** No row can be reported before the first active day: the sweep never looks into the past. */
  lemma {:induction false} SweepDateIsActive(ivs: seq<Interval>, limit: int, from: Date)
    requires AllProper(ivs) && limit > 0 && Sweep(ivs, limit).Some?
    requires forall i :: 0 <= i < |ivs| ==> from <= ivs[i].starts
    ensures from <= Sweep(ivs, limit).value.date
  {
    SweepIsPointwise(ivs, limit);
    var e := Sweep(ivs, limit).value;
    if e.date < from {
      CountBeforeStart(ivs, from, e.date);
    }
  }

  lemma {:induction false} CountBeforeStart(ivs: seq<Interval>, from: Date, d: Date)
    requires d < from && forall i :: 0 <= i < |ivs| ==> from <= ivs[i].starts
    ensures CountOn(ivs, d) == 0
  {
    if ivs != [] {
      assert forall i :: 0 <= i < |ivs[1..]| ==> ivs[1..][i] == ivs[i + 1];
      CountBeforeStart(ivs[1..], from, d);
    }
  }
}
