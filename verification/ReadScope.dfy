/**
 * What compensation history of a Driver a caller may read: from the Driver's tenures to the days
 * covered, and from the days covered to the rows seen.
 */
module ReadScope {
  import opened Base

  // ----- scopes and rows -----

  /** Inclusive days. */
  datatype Window = Window(first: Date, last: Date)

  datatype ReadScope = Full | Limited(windows: seq<Window>)

  /** A schedule or rule row; an open row has no last day. */
  datatype Row = Row(pending: bool, effectiveFrom: Date, effectiveTo: Option<Date>)

  predicate Covers(scope: ReadScope, day: Date) {
    scope.Full? || exists i :: 0 <= i < |scope.windows| && scope.windows[i].first <= day <= scope.windows[i].last
  }

  predicate Overlaps(w: Window, row: Row) {
    row.effectiveFrom <= w.last && (row.effectiveTo.None? || row.effectiveTo.value >= w.first)
  }

  /** The decision in code, by comparing ends. */
  predicate Sees(scope: ReadScope, row: Row) {
    scope.Full? || (!row.pending && exists i :: 0 <= i < |scope.windows| && Overlaps(scope.windows[i], row))
  }

  predicate InRow(row: Row, day: Date) {
    row.effectiveFrom <= day && (row.effectiveTo.Some? ==> day <= row.effectiveTo.value)
  }

  predicate InWindow(w: Window, day: Date) {
    w.first <= day <= w.last
  }

  /** Two ranges of days overlap when they share a day. */
  ghost predicate ShareADay(w: Window, row: Row) {
    exists day :: InWindow(w, day) && InRow(row, day)
  }

  /** The database builds a range from two days and raises when they are the wrong way round. */
  datatype Filtered = Raises | Selects(selected: bool)

  /** The decision in the database, by overlap of day ranges. */
  ghost function RowFilter(scope: ReadScope, row: Row): Filtered {
    if scope.Full? then Selects(true)
    else if !NonEmptyWindows(scope) || (scope.windows != [] && !NonEmptyRow(row)) then Raises
    else Selects(!row.pending && exists i :: 0 <= i < |scope.windows| && ShareADay(scope.windows[i], row))
  }

  ghost predicate SomeCoveredDay(scope: ReadScope, row: Row) {
    exists day :: Covers(scope, day) && InRow(row, day)
  }

  predicate NonEmptyWindows(scope: ReadScope) {
    scope.Limited? ==> forall i :: 0 <= i < |scope.windows| ==> scope.windows[i].first <= scope.windows[i].last
  }

  predicate NonEmptyRow(row: Row) {
    row.effectiveTo.Some? ==> row.effectiveFrom <= row.effectiveTo.value
  }

  lemma OverlapIsASharedDay(w: Window, row: Row)
    requires w.first <= w.last && NonEmptyRow(row)
    ensures Overlaps(w, row) <==> ShareADay(w, row)
  {
    if Overlaps(w, row) {
      var day := if w.first <= row.effectiveFrom then row.effectiveFrom else w.first;
      assert InWindow(w, day) && InRow(row, day);
    }
  }

  /**
   * The code and the database filter decide alike, on every row and every list of windows, as long
   * as none of them is the wrong way round; otherwise the filter raises.
   */
  lemma SeesIsRowFilter(scope: ReadScope, row: Row)
    ensures RowFilter(scope, row).Raises? <==>
            && scope.Limited? && scope.windows != []
            && (|| (row.effectiveTo.Some? && row.effectiveTo.value < row.effectiveFrom)
                || exists i :: 0 <= i < |scope.windows| && scope.windows[i].last < scope.windows[i].first)
    ensures RowFilter(scope, row).Selects? ==> RowFilter(scope, row).selected == Sees(scope, row)
  {
    if RowFilter(scope, row).Selects? && (scope.Full? || scope.windows != []) {
      FilterIsSees(scope, row);
    }
  }

  lemma FilterIsSees(scope: ReadScope, row: Row)
    requires NonEmptyWindows(scope) && (scope.Limited? ==> NonEmptyRow(row))
    ensures RowFilter(scope, row) == Selects(Sees(scope, row))
  {
    if scope.Limited? {
      forall i | 0 <= i < |scope.windows| ensures Overlaps(scope.windows[i], row) <==> ShareADay(scope.windows[i], row) {
        OverlapIsASharedDay(scope.windows[i], row);
      }
    }
  }

  /** A full reader sees every row, a limited one those not Pending of which they cover a day. */
  lemma SeesIsDayVisibility(scope: ReadScope, row: Row)
    requires scope.Limited? ==> forall i :: 0 <= i < |scope.windows| ==> scope.windows[i].first <= scope.windows[i].last
    requires row.effectiveTo.None? || row.effectiveFrom <= row.effectiveTo.value
    ensures Sees(scope, row) <==>
            || scope.Full?
            || (&& !row.pending
                && exists day :: Covers(scope, day) && row.effectiveFrom <= day
                                 && (row.effectiveTo.None? || day <= row.effectiveTo.value))
  {
    if scope.Full? {
      return;
    }
    FilterIsSees(scope, row);
    assert SomeCoveredDay(scope, row) <==>
      exists day :: Covers(scope, day) && row.effectiveFrom <= day && (row.effectiveTo.None? || day <= row.effectiveTo.value);
    if !row.pending && Sees(scope, row) {
      var i :| 0 <= i < |scope.windows| && ShareADay(scope.windows[i], row);
      var day :| InWindow(scope.windows[i], day) && InRow(row, day);
      assert Covers(scope, day) && InRow(row, day);
    }
    if SomeCoveredDay(scope, row) {
      var day :| Covers(scope, day) && InRow(row, day);
      var i :| 0 <= i < |scope.windows| && scope.windows[i].first <= day <= scope.windows[i].last;
      assert InWindow(scope.windows[i], day) && ShareADay(scope.windows[i], row);
    }
  }

  /**
   * An empty window would break both: the code sees a row whose ends straddle it, although the
   * window has no day, and the database raises.
   */
  lemma EmptyWindowMisleads(row: Row, day: Date)
    requires !row.pending && InRow(row, day) && InRow(row, day + 1)
    ensures var scope := Limited([Window(day + 1, day)]);
            Sees(scope, row) && RowFilter(scope, row).Raises? && !SomeCoveredDay(scope, row)
  {
    var scope := Limited([Window(day + 1, day)]);
    assert Overlaps(scope.windows[0], row);
  }

  // ----- from tenures to a scope -----

  /** A non-empty tenure, in instants; its last day is that of its last instant. */
  datatype Tenure = Tenure(branch: int, fromAt: int, toAt: Option<int>)

  predicate IsAuthority(t: Tenure, instant: int) {
    t.toAt.None? || t.toAt.value > instant
  }

  /** The Branch-local day of an instant: any function that never goes back. */
  ghost predicate NeverGoesBack(day: (int, int) -> Date) {
    forall b, x, y :: x <= y ==> day(b, x) <= day(b, y)
  }

  function WindowOf(t: Tenure, day: (int, int) -> Date): Window
    requires t.toAt.Some?
  {
    Window(day(t.branch, t.fromAt), day(t.branch, t.toAt.value - 1))
  }

  predicate ReadableEnded(t: Tenure, readable: set<int>) {
    t.branch in readable && t.toAt.Some?
  }

  function WindowsOf(tenures: seq<Tenure>, readable: set<int>, day: (int, int) -> Date): seq<Window> {
    if tenures == [] then []
    else
      var n := |tenures| - 1;
      WindowsOf(tenures[..n], readable, day)
      + if ReadableEnded(tenures[n], readable) then [WindowOf(tenures[n], day)] else []
  }

  predicate ReadsNow(t: Tenure, readable: set<int>, instant: int) {
    t.branch in readable && IsAuthority(t, instant)
  }

  /** The scope, or None when the caller may read nothing. */
  function ScopeOf(
    tenures: seq<Tenure>, companyWide: bool, readable: set<int>, instant: int, day: (int, int) -> Date): Option<ReadScope>
  {
    if companyWide || exists i :: 0 <= i < |tenures| && ReadsNow(tenures[i], readable, instant) then Some(Full)
    else if WindowsOf(tenures, readable, day) == [] then None
    else Some(Limited(WindowsOf(tenures, readable, day)))
  }

  /** The tenure Branches in which the permission function lets the caller read rates. */
  function ReadableBranches(tenures: seq<Tenure>, may: Option<int> -> bool): set<int> {
    set i | 0 <= i < |tenures| && may(Some(tenures[i].branch)) :: tenures[i].branch
  }

  lemma {:induction false} SomeWindow(tenures: seq<Tenure>, readable: set<int>, day: (int, int) -> Date)
    ensures WindowsOf(tenures, readable, day) == [] <==>
            forall i :: 0 <= i < |tenures| && tenures[i].toAt.Some? ==> tenures[i].branch !in readable
  {
    if tenures != [] {
      SomeWindow(tenures[..|tenures| - 1], readable, day);
    }
  }

  /**
   * Everything with the permission company-wide or in the Branch of a tenure that has not ended;
   * nothing without it in any tenure's Branch.
   */
  lemma ScopeDecides(tenures: seq<Tenure>, may: Option<int> -> bool, instant: int, day: (int, int) -> Date)
    ensures var scope := ScopeOf(tenures, may(None), ReadableBranches(tenures, may), instant, day);
            && (scope == Some(Full) <==>
                  || may(None)
                  || exists i :: 0 <= i < |tenures| && may(Some(tenures[i].branch))
                                 && (tenures[i].toAt.None? || tenures[i].toAt.value > instant))
            && (scope == None <==> !may(None) && forall i :: 0 <= i < |tenures| ==> !may(Some(tenures[i].branch)))
  {
    var readable := ReadableBranches(tenures, may);
    SomeWindow(tenures, readable, day);
    forall i | 0 <= i < |tenures|
      ensures tenures[i].branch in readable <==> may(Some(tenures[i].branch))
      ensures ReadsNow(tenures[i], readable, instant) <==>
              may(Some(tenures[i].branch)) && (tenures[i].toAt.None? || tenures[i].toAt.value > instant)
    {
      if tenures[i].branch in readable {
        var k :| 0 <= k < |tenures| && may(Some(tenures[k].branch)) && tenures[k].branch == tenures[i].branch;
      }
    }
  }

  /** The caller's permission is asked company-wide first and then for each tenure Branch. */
  method DriverCompensationReadScope(
    tenures: seq<Tenure>, may: Option<int> -> bool, instant: int, day: (int, int) -> Date)
    returns (scope: Option<ReadScope>)
    ensures scope == ScopeOf(tenures, may(None), ReadableBranches(tenures, may), instant, day)
    ensures scope == Some(Full) <==>
            || may(None)
            || exists i :: 0 <= i < |tenures| && may(Some(tenures[i].branch))
                           && (tenures[i].toAt.None? || tenures[i].toAt.value > instant)
    ensures scope == None <==> !may(None) && forall i :: 0 <= i < |tenures| ==> !may(Some(tenures[i].branch))
  {
    ScopeDecides(tenures, may, instant, day);
    if may(None) {
      return Some(Full);
    }
    var readable: set<int> := {};
    for i := 0 to |tenures|
      invariant readable == set k | 0 <= k < i && may(Some(tenures[k].branch)) :: tenures[k].branch
    {
      if may(Some(tenures[i].branch)) {
        readable := readable + {tenures[i].branch};
      }
    }
    if exists i :: 0 <= i < |tenures| && ReadsNow(tenures[i], readable, instant) {
      return Some(Full);
    }
    var windows: seq<Window> := [];
    for i := 0 to |tenures|
      invariant windows == WindowsOf(tenures[..i], readable, day)
    {
      assert tenures[..i + 1][..i] == tenures[..i];
      if ReadableEnded(tenures[i], readable) {
        windows := windows + [WindowOf(tenures[i], day)];
      }
    }
    assert tenures[..|tenures|] == tenures;
    scope := if windows == [] then None else Some(Limited(windows));
  }

  predicate NonEmptyTenures(tenures: seq<Tenure>) {
    forall i :: 0 <= i < |tenures| && tenures[i].toAt.Some? ==> tenures[i].fromAt < tenures[i].toAt.value
  }

  /** The day is one of the tenure's days. */
  ghost predicate OnTenure(t: Tenure, x: Date, day: (int, int) -> Date) {
    t.toAt.Some? && InWindow(WindowOf(t, day), x)
  }

  /** The day is one of an ended tenure in a Branch the caller may read. */
  ghost predicate OnReadableTenure(tenures: seq<Tenure>, readable: set<int>, day: (int, int) -> Date, x: Date) {
    exists i :: 0 <= i < |tenures| && tenures[i].branch in readable && OnTenure(tenures[i], x, day)
  }

  lemma OneMoreTenure(tenures: seq<Tenure>, t: Tenure, readable: set<int>, day: (int, int) -> Date, x: Date)
    ensures OnReadableTenure(tenures + [t], readable, day, x)
        <==> OnReadableTenure(tenures, readable, day, x) || (t.branch in readable && OnTenure(t, x, day))
  {
    var all := tenures + [t];
    assert all[|tenures|] == t;
    if OnReadableTenure(tenures, readable, day, x) {
      var i :| 0 <= i < |tenures| && tenures[i].branch in readable && OnTenure(tenures[i], x, day);
      assert all[i] == tenures[i];
    }
  }

  lemma OneMoreWindow(windows: seq<Window>, w: Window, x: Date)
    ensures Covers(Limited(windows + [w]), x) <==> Covers(Limited(windows), x) || InWindow(w, x)
    ensures NonEmptyWindows(Limited(windows + [w])) <==> NonEmptyWindows(Limited(windows)) && w.first <= w.last
  {
    var all := windows + [w];
    assert all[|windows|] == w;
    assert forall i :: 0 <= i < |windows| ==> all[i] == windows[i];
  }

  lemma {:induction false} WindowsAreTenureDays(tenures: seq<Tenure>, readable: set<int>, day: (int, int) -> Date, x: Date)
    requires NonEmptyTenures(tenures) && NeverGoesBack(day)
    ensures var scope := Limited(WindowsOf(tenures, readable, day));
            NonEmptyWindows(scope) && (Covers(scope, x) <==> OnReadableTenure(tenures, readable, day, x))
  {
    if tenures != [] {
      var n := |tenures| - 1;
      WindowsAreTenureDays(tenures[..n], readable, day, x);
      assert tenures == tenures[..n] + [tenures[n]];
      OneMoreTenure(tenures[..n], tenures[n], readable, day, x);
      if ReadableEnded(tenures[n], readable) {
        OneMoreWindow(WindowsOf(tenures[..n], readable, day), WindowOf(tenures[n], day), x);
      } else {
        assert WindowsOf(tenures, readable, day) == WindowsOf(tenures[..n], readable, day);
      }
    }
  }

  /**
   * A limited reader covers exactly the days of the tenures in the Branches they may read, all of
   * which have ended; and its windows are never empty, as the visibility rules need.
   */
  lemma LimitedReadersSeeEndedTenures(
      tenures: seq<Tenure>, companyWide: bool, readable: set<int>, instant: int, day: (int, int) -> Date, x: Date)
    requires forall i :: 0 <= i < |tenures| && tenures[i].toAt.Some? ==> tenures[i].fromAt < tenures[i].toAt.value
    requires forall b, at, later :: at <= later ==> day(b, at) <= day(b, later)
    requires ScopeOf(tenures, companyWide, readable, instant, day).Some?
    ensures var scope := ScopeOf(tenures, companyWide, readable, instant, day).value;
            && NonEmptyWindows(scope)
            && (scope.Limited? ==>
                  && (forall i :: 0 <= i < |tenures| && tenures[i].branch in readable ==>
                        tenures[i].toAt.Some? && tenures[i].toAt.value <= instant)
                  && (Covers(scope, x) <==>
                        exists i :: 0 <= i < |tenures| && tenures[i].branch in readable && tenures[i].toAt.Some?
                                    && day(tenures[i].branch, tenures[i].fromAt) <= x
                                       <= day(tenures[i].branch, tenures[i].toAt.value - 1)))
  {
    var scope := ScopeOf(tenures, companyWide, readable, instant, day).value;
    if scope.Limited? {
      WindowsAreTenureDays(tenures, readable, day, x);
      forall i | 0 <= i < |tenures| && tenures[i].branch in readable ensures !IsAuthority(tenures[i], instant) {
        assert !ReadsNow(tenures[i], readable, instant);
      }
    }
  }
}
