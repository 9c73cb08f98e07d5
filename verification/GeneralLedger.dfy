/**
 The general-ledger report: opening balance, one page of rows with running
 balances, totals and closing balance, read from a server that answers with a
 bounded number of rows at a time. The ledger's order is taken as one fixed
 sequence of rows.
 */
module GeneralLedger {
  import opened Wrappers
  import opened Sums
  import opened Accounts
  import opened Ledger

  const AGGREGATE_CHUNK := 1000

  function NetRow(): Row -> int { (r: Row) => r.debit - r.credit }
  function DebitRow(): Row -> int { (r: Row) => r.debit }
  function CreditRow(): Row -> int { (r: Row) => r.credit }

  /** Rows `from` .. `from + take` of a result, cut at the server's cap; none beyond the end. */
  function Range<T>(rows: seq<T>, from: nat, take: nat, cap: nat): (page: seq<T>)
    ensures |page| == if from >= |rows| then 0 else Min(Min(take, cap), |rows| - from)
  {
    if from >= |rows| then [] else rows[from..Min(from + Min(take, cap), |rows|)]
  }

  /** How many rows a chunked scan reaches. */
  function Covered(n: nat, upTo: Option<nat>, cap: nat): (k: nat)
    ensures k <= n
  {
    if upTo.Some? && (upTo.value <= cap || AGGREGATE_CHUNK <= cap) then Min(n, upTo.value)
    else if AGGREGATE_CHUNK <= cap then n
    else Min(n, cap)
  }

  /** The rows that an unbounded scan does not reach: none exactly when the cap allows a full chunk or the rows fit under it. */
  function Missed(rows: seq<Row>, cap: nat): (missed: seq<Row>)
    ensures missed == [] <==> AGGREGATE_CHUNK <= cap || |rows| <= cap
  {
    rows[Covered(|rows|, None, cap)..]
  }

  lemma SumSlice<T>(rows: seq<T>, i: nat, j: nat, f: T -> int)
    requires i <= j <= |rows|
    ensures Sum(rows[..j], f) == Sum(rows[..i], f) + Sum(rows[i..j], f)
  {
    assert rows[..j] == rows[..i] + rows[i..j];
    SumAppend(rows[..i], rows[i..j], f);
  }

  method SumPage(page: seq<Row>, debit0: int, credit0: int) returns (debit: int, credit: int)
    ensures debit == debit0 + Sum(page, DebitRow()) && credit == credit0 + Sum(page, CreditRow())
  {
    debit, credit := debit0, credit0;
    for i := 0 to |page|
      invariant debit == debit0 + Sum(page[..i], DebitRow()) && credit == credit0 + Sum(page[..i], CreditRow())
    {
      SumPrefixStep(page, i, DebitRow());
      SumPrefixStep(page, i, CreditRow());
      debit, credit := debit + page[i].debit, credit + page[i].credit;
    }
    assert page[..|page|] == page;
  }

  lemma NothingReached(rows: seq<Row>)
    ensures Sum(rows[..0], DebitRow()) == 0 && Sum(rows[..0], CreditRow()) == 0
  {
  }

  lemma RangeIs<T>(rows: seq<T>, from: nat, take: nat, cap: nat)
    requires from <= |rows|
    ensures from + |Range(rows, from, take, cap)| <= |rows|
    ensures Range(rows, from, take, cap) == rows[from..from + |Range(rows, from, take, cap)|]
  {
  }

  lemma Reaches(rows: seq<Row>, cap: nat, f: Row -> int)
    ensures Sum(rows[..Covered(|rows|, None, cap)], f) == Sum(rows, f) - Sum(Missed(rows, cap), f)
  {
    var k := Covered(|rows|, None, cap);
    assert rows == rows[..k] + rows[k..];
    SumAppend(rows[..k], rows[k..], f);
  }

  /** The scan ends for any number of rows, with the plain sums of the rows it reaches. */
  method Scan(rows: seq<Row>, upTo: Option<nat>, cap: nat) returns (debit: int, credit: int)
    ensures debit == Sum(rows[..Covered(|rows|, upTo, cap)], DebitRow())
    ensures credit == Sum(rows[..Covered(|rows|, upTo, cap)], CreditRow())
    ensures upTo.None? ==> debit == Sum(rows, DebitRow()) - Sum(Missed(rows, cap), DebitRow())
    ensures upTo.None? ==> credit == Sum(rows, CreditRow()) - Sum(Missed(rows, cap), CreditRow())
  {
    hide Sum, Range;
    Reaches(rows, cap, DebitRow());
    Reaches(rows, cap, CreditRow());
    debit, credit := 0, 0;
    var from := 0;
    ghost var reached := 0;
    NothingReached(rows);
    while upTo.None? || from < upTo.value
      invariant reached <= |rows|
      invariant from > 0 && cap < AGGREGATE_CHUNK ==> upTo.Some? && upTo.value <= cap && upTo.value <= from
      invariant reached == (if upTo.Some? then Min(from, upTo.value) else from)
      invariant debit == Sum(rows[..reached], DebitRow()) && credit == Sum(rows[..reached], CreditRow())
      decreases |rows| + AGGREGATE_CHUNK - from
    {
      var take := if upTo.Some? then Min(AGGREGATE_CHUNK, upTo.value - from) else AGGREGATE_CHUNK;
      var list := Range(rows, from, take, cap);
      RangeIs(rows, from, take, cap);
      SumSlice(rows, from, from + |list|, DebitRow());
      SumSlice(rows, from, from + |list|, CreditRow());
      debit, credit := SumPage(list, debit, credit);
      reached := reached + |list|;
      if |list| < take { break; }
      from := from + AGGREGATE_CHUNK;
    }
  }

  // ---- Running balances ----

  datatype LedgerEntry = LedgerEntry(row: Row, balance: int)

  /** Each row with the balance after it. */
  function Running(rows: seq<Row>, start: int): (entries: seq<LedgerEntry>)
    ensures |entries| == |rows|
  {
    if rows == [] then []
    else
      var init, last := rows[..|rows| - 1], rows[|rows| - 1];
      Running(init, start) + [LedgerEntry(last, start + Sum(rows, NetRow()))]
  }

  lemma {:induction false} RunningAt(rows: seq<Row>, start: int, i: nat)
    requires i < |rows|
    ensures Running(rows, start)[i] == LedgerEntry(rows[i], start + Sum(rows[..i + 1], NetRow()))
  {
    if i == |rows| - 1 {
      assert rows[..i + 1] == rows;
    } else {
      RunningAt(rows[..|rows| - 1], start, i);
      assert rows[..|rows| - 1][..i + 1] == rows[..i + 1];
    }
  }

  method WithRunningBalance(rows: seq<Row>, startingBalance: int) returns (entries: seq<LedgerEntry>)
    ensures entries == Running(rows, startingBalance)
  {
    var running := startingBalance;
    entries := [];
    for i := 0 to |rows|
      invariant running == startingBalance + Sum(rows[..i], NetRow())
      invariant entries == Running(rows[..i], startingBalance)
    {
      SumPrefixStep(rows, i, NetRow());
      assert rows[..i + 1][..i] == rows[..i];
      running := running + rows[i].debit - rows[i].credit;
      entries := entries + [LedgerEntry(rows[i], running)];
    }
    assert rows[..|rows|] == rows;
  }

  lemma TakeOfSlice<T>(xs: seq<T>, i: nat, j: nat, k: nat)
    requires i + k <= j <= |xs|
    ensures xs[i..j][..k] == xs[i..i + k]
  {
  }

  /** A slice of the running report is the running report of the slice, from the balance carried in. */
  lemma RunningSlice(rows: seq<Row>, start: int, i: nat, j: nat)
    requires i <= j <= |rows|
    ensures Running(rows, start)[i..j] == Running(rows[i..j], start + Sum(rows[..i], NetRow()))
  {
    hide Running;
    var slice, carried := rows[i..j], start + Sum(rows[..i], NetRow());
    forall k: nat | k < j - i
      ensures Running(rows, start)[i + k] == Running(slice, carried)[k]
    {
      RunningAt(rows, start, i + k);
      RunningAt(slice, carried, k);
      SumSlice(rows, i, i + k + 1, NetRow());
      TakeOfSlice(rows, i, j, k + 1);
    }
  }

  // ---- The report ----

  datatype Report = Report(entries: seq<LedgerEntry>, opening: int, closing: int, debit: int, credit: int, total: nat)

  /** `scope` is the account and class filter that every part of one report shares. */
  datatype Query = Query(scope: Row -> bool, from: int, to: int)

  function Before(q: Query): Row -> bool { (r: Row) => q.scope(r) && r.date < q.from }
  function InPeriod(q: Query): Row -> bool { (r: Row) => q.scope(r) && q.from <= r.date <= q.to }
  function UpTo(q: Query): Row -> bool { (r: Row) => q.scope(r) && r.date <= q.to }

  function Opening(rows: seq<Row>, q: Query): int { Sum(Filter(rows, Before(q)), NetRow()) }
  function Closing(rows: seq<Row>, q: Query): int { Sum(Filter(rows, UpTo(q)), NetRow()) }

  /** Every row of the period with its running balance. */
  function WholeReport(rows: seq<Row>, q: Query): seq<LedgerEntry> {
    Running(Filter(rows, InPeriod(q)), Opening(rows, q))
  }

  function Slice<T>(xs: seq<T>, offset: nat, limit: nat): seq<T> {
    xs[Min(offset, |xs|)..Min(offset + limit, |xs|)]
  }

  /** What a page should hold: the rows the server returns for it, each with its balance in the whole report. */
  function PageOf(rows: seq<Row>, q: Query, limit: nat, offset: nat, cap: nat): seq<LedgerEntry> {
    Slice(WholeReport(rows, q), offset, Min(limit, cap))
  }

  /** The rows before a page that the scan for its starting balance does not reach. */
  function MissedBefore(rows: seq<Row>, offset: nat, cap: nat): (missed: seq<Row>)
    ensures missed == [] <==> AGGREGATE_CHUNK <= cap || offset <= cap || |rows| <= cap
  {
    rows[Min(Covered(|rows|, Some(offset), cap), Min(offset, |rows|))..Min(offset, |rows|)]
  }

  /** The balance the scans carry into a page: the net of the rows they reach. */
  function Carried(rows: seq<Row>, q: Query, offset: nat, cap: nat): int {
    var (earlier, inPeriod) := (Filter(rows, Before(q)), Filter(rows, InPeriod(q)));
    Sum(earlier[..Covered(|earlier|, None, cap)], NetRow()) + Sum(inPeriod[..Covered(|inPeriod|, Some(offset), cap)], NetRow())
  }

  /** What a page does hold: the same rows, with balances that start from what was carried in. */
  function ReturnedPage(rows: seq<Row>, q: Query, limit: nat, offset: nat, cap: nat): seq<LedgerEntry> {
    Running(Slice(Filter(rows, InPeriod(q)), offset, Min(limit, cap)), Carried(rows, q, offset, cap))
  }

  /** The net of the rows the scans miss: by so much every balance of the page is short. */
  function Shift(rows: seq<Row>, q: Query, offset: nat, cap: nat): int {
    Sum(Missed(Filter(rows, Before(q)), cap), NetRow()) + Sum(MissedBefore(Filter(rows, InPeriod(q)), offset, cap), NetRow())
  }

  lemma CarriedIsShort(rows: seq<Row>, q: Query, offset: nat, cap: nat)
    ensures var inPeriod := Filter(rows, InPeriod(q));
      Carried(rows, q, offset, cap) == Opening(rows, q) + Sum(inPeriod[..Min(offset, |inPeriod|)], NetRow()) - Shift(rows, q, offset, cap)
  {
    hide Filter, Sum, Missed;
    var (earlier, inPeriod) := (Filter(rows, Before(q)), Filter(rows, InPeriod(q)));
    Reaches(earlier, cap, NetRow());
    SumSlice(inPeriod, Covered(|inPeriod|, Some(offset), cap), Min(offset, |inPeriod|), NetRow());
  }

  /** A page is what it should be exactly when it has no rows or the rows the scans miss net to nothing. */
  lemma PageIsSliceIff(rows: seq<Row>, q: Query, limit: nat, offset: nat, cap: nat)
    ensures |ReturnedPage(rows, q, limit, offset, cap)| == |PageOf(rows, q, limit, offset, cap)|
    ensures ReturnedPage(rows, q, limit, offset, cap) == PageOf(rows, q, limit, offset, cap)
       <==> PageOf(rows, q, limit, offset, cap) == [] || Shift(rows, q, offset, cap) == 0
  {
    hide Filter, Sum, Running, Carried, Shift, Opening;
    var inPeriod := Filter(rows, InPeriod(q));
    var slice := Slice(inPeriod, offset, Min(limit, cap));
    var start := Min(offset, |inPeriod|);
    CarriedIsShort(rows, q, offset, cap);
    RunningSlice(inPeriod, Opening(rows, q), start, Min(offset + Min(limit, cap), |inPeriod|));
    if slice != [] {
      RunningAt(slice, Carried(rows, q, offset, cap), 0);
      RunningAt(slice, Opening(rows, q) + Sum(inPeriod[..start], NetRow()), 0);
    }
  }

  /** Nothing is missed, and no page is short, when the cap allows a full chunk or all the rows fit under it. */
  lemma UnshiftedUnder(rows: seq<Row>, q: Query, offset: nat, cap: nat)
    requires AGGREGATE_CHUNK <= cap || (|Filter(rows, Before(q))| <= cap && (offset <= cap || |Filter(rows, InPeriod(q))| <= cap))
    ensures Shift(rows, q, offset, cap) == 0
  {
    hide Filter;
    NothingMissed();
  }

  lemma NetOfTotals(rows: seq<Row>)
    ensures Sum(rows, NetRow()) == Sum(rows, DebitRow()) - Sum(rows, CreditRow())
  {
    SumAdd(rows, NetRow(), CreditRow(), DebitRow());
  }

  /**
   A page holds its rows with balances that start from what the scans reach; the
   opening balance and the totals leave out exactly the rows the scans miss.
   Skipping the aggregates starts a page from nothing.
   */
  method GetGeneralLedgerReport(rows: seq<Row>, q: Query, limit: nat, offset: nat, skipAggregates: bool, cap: nat)
    returns (report: Report)
    ensures report.total == |WholeReport(rows, q)|
    ensures !skipAggregates ==>
      var (earlier, inPeriod) := (Missed(Filter(rows, Before(q)), cap), Missed(Filter(rows, InPeriod(q)), cap));
      && report.entries == ReturnedPage(rows, q, limit, offset, cap)
      && report.opening == Opening(rows, q) - Sum(earlier, NetRow())
      && (q.from <= q.to ==> report.closing == Closing(rows, q) - Sum(earlier, NetRow()) - Sum(inPeriod, NetRow()))
      && report.debit == Sum(Filter(rows, InPeriod(q)), DebitRow()) - Sum(inPeriod, DebitRow())
      && report.credit == Sum(Filter(rows, InPeriod(q)), CreditRow()) - Sum(inPeriod, CreditRow())
    ensures skipAggregates ==>
      && report.entries == Running(Slice(Filter(rows, InPeriod(q)), offset, Min(limit, cap)), 0)
      && report.opening == 0 && report.closing == 0 && report.debit == 0 && report.credit == 0
  {
    hide Filter, Sum, Running;
    var inPeriod := Filter(rows, InPeriod(q));
    var n := |inPeriod|;
    var data := Range(inPeriod, offset, limit, cap);
    assert data == Slice(inPeriod, offset, Min(limit, cap));
    var opening, debit, credit, priorNet := 0, 0, 0, 0;
    if !skipAggregates {
      var earlier := Filter(rows, Before(q));
      var d, c := Scan(earlier, None, cap);
      NetOfTotals(earlier);
      NetOfTotals(earlier[..Covered(|earlier|, None, cap)]);
      NetOfTotals(Missed(earlier, cap));
      opening := d - c;
      debit, credit := Scan(inPeriod, None, cap);
      if offset > 0 {
        d, c := Scan(inPeriod, Some(offset), cap);
        NetOfTotals(inPeriod[..Covered(n, Some(offset), cap)]);
        priorNet := d - c;
      } else {
        EmptyNet(inPeriod);
      }
      if q.from <= q.to { PeriodSplits(rows, q); }
      NetOfTotals(inPeriod);
      NetOfTotals(Missed(inPeriod, cap));
    }
    var entries := WithRunningBalance(data, opening + priorNet);
    report := Report(entries, opening, opening + debit - credit, debit, credit, n);
  }

  lemma NothingMissed()
    ensures Sum([], NetRow()) == 0
  {
  }

  lemma EmptyNet(rows: seq<Row>)
    ensures Sum(rows[..0], NetRow()) == 0
  {
  }

  function NetIf(p: Row -> bool): Row -> int { (r: Row) => if p(r) then r.debit - r.credit else 0 }

  lemma FilteredNet(rows: seq<Row>, p: Row -> bool)
    ensures Sum(Filter(rows, p), NetRow()) == Sum(rows, NetIf(p))
  {
    SumFilter(rows, p, NetIf(p));
    SumSame(Filter(rows, p), NetRow(), NetIf(p));
  }

  /** Opening plus the period's movement is the closing balance. */
  lemma PeriodSplits(rows: seq<Row>, q: Query)
    requires q.from <= q.to
    ensures Closing(rows, q) == Opening(rows, q) + Sum(Filter(rows, InPeriod(q)), NetRow())
  {
    FilteredNet(rows, Before(q));
    FilteredNet(rows, InPeriod(q));
    FilteredNet(rows, UpTo(q));
    SumAdd(rows, NetIf(Before(q)), NetIf(InPeriod(q)), NetIf(UpTo(q)));
  }

  /** The last running balance is the closing balance. */
  lemma LastIsClosing(rows: seq<Row>, q: Query)
    requires q.from <= q.to && WholeReport(rows, q) != []
    ensures WholeReport(rows, q)[|WholeReport(rows, q)| - 1].balance == Closing(rows, q)
  {
    var inPeriod := Filter(rows, InPeriod(q));
    RunningAt(inPeriod, Opening(rows, q), |inPeriod| - 1);
    assert inPeriod[..|inPeriod|] == inPeriod;
    PeriodSplits(rows, q);
  }

  /** A report that starts right after another one ends opens with the other's closing balance. */
  lemma OpeningIsPriorClosing(rows: seq<Row>, q: Query, later: Query)
    requires later.scope == q.scope && later.from == q.to + 1
    ensures Opening(rows, later) == Closing(rows, q)
  {
    FilteredNet(rows, Before(later));
    FilteredNet(rows, UpTo(q));
    SumSame(rows, NetIf(Before(later)), NetIf(UpTo(q)));
  }

  /** When the scope is one account, the closing balance is the movement the balance reports show. */
  lemma ClosingIsMovement(rows: seq<Row>, q: Query, account: string)
    requires forall r :: q.scope(r) <==> r.account == account
    ensures Closing(rows, q) == Movement(rows, account, AsOf(q.to))
  {
    FilteredNet(rows, UpTo(q));
    SumSame(rows, NetIf(UpTo(q)), RowNetOn(account, AsOf(q.to)));
  }

  // ---- Pages ----

  /** Where the page after k full ones starts. */
  function PageStart(k: nat, limit: nat): nat { k * limit }

  lemma NextStart(m: nat, limit: nat)
    requires m > 0
    ensures PageStart(m, limit) == PageStart(m - 1, limit) + limit
  {
  }

  lemma FirstStart(limit: nat)
    ensures PageStart(0, limit) == 0
  {
  }

  /** The first m pages of a report read one after another, each starting where the request before it meant to end. */
  function FirstPages(rows: seq<Row>, q: Query, limit: nat, m: nat, cap: nat): seq<LedgerEntry> {
    if m == 0 then [] else FirstPages(rows, q, limit, m - 1, cap) + PageOf(rows, q, limit, PageStart(m - 1, limit), cap)
  }

  /** Pages no larger than the cap follow one another without a gap. */
  lemma {:induction false} FullPages(rows: seq<Row>, q: Query, limit: nat, m: nat, cap: nat)
    requires limit <= cap
    ensures FirstPages(rows, q, limit, m, cap) == WholeReport(rows, q)[..Min(PageStart(m, limit), |WholeReport(rows, q)|)]
  {
    hide WholeReport, PageStart;
    if m == 0 {
      FirstStart(limit);
    } else {
      FullPages(rows, q, limit, m - 1, cap);
      var xs, start := WholeReport(rows, q), PageStart(m - 1, limit);
      NextStart(m, limit);
      assert xs[..Min(start + limit, |xs|)] == xs[..Min(start, |xs|)] + xs[Min(start, |xs|)..Min(start + limit, |xs|)];
    }
  }

  /** A page larger than the cap comes back short of its size, and the rows it lacks are in no later page. */
  lemma {:induction false} ShortPages(rows: seq<Row>, q: Query, limit: nat, m: nat, cap: nat)
    requires cap < limit && m > 0
    ensures |WholeReport(rows, q)| <= cap ==> FirstPages(rows, q, limit, m, cap) == WholeReport(rows, q)
    ensures |WholeReport(rows, q)| > cap ==> |FirstPages(rows, q, limit, m, cap)| < Min(PageStart(m, limit), |WholeReport(rows, q)|)
  {
    hide WholeReport, PageStart;
    NextStart(m, limit);
    if m == 1 {
      FirstStart(limit);
      assert FirstPages(rows, q, limit, 0, cap) == [];
    } else {
      ShortPages(rows, q, limit, m - 1, cap);
      NextStart(m - 1, limit);
    }
  }

  /** The first m pages as they are returned. */
  function ReturnedPages(rows: seq<Row>, q: Query, limit: nat, m: nat, cap: nat): seq<LedgerEntry> {
    if m == 0 then []
    else ReturnedPages(rows, q, limit, m - 1, cap) + ReturnedPage(rows, q, limit, PageStart(m - 1, limit), cap)
  }

  /** None of the first m pages that has rows is short of its balance. */
  ghost predicate Unshifted(rows: seq<Row>, q: Query, limit: nat, m: nat, cap: nat) {
    forall k :: 0 <= k < m && PageStart(k, limit) < |WholeReport(rows, q)| ==> Shift(rows, q, PageStart(k, limit), cap) == 0
  }

  lemma SplitEqual<T>(a: seq<T>, b: seq<T>, c: seq<T>, d: seq<T>)
    requires |a| == |c|
    ensures a + b == c + d <==> a == c && b == d
  {
    if a + b == c + d {
      assert a == (a + b)[..|a|] && c == (c + d)[..|c|];
      assert b == (a + b)[|a|..] && d == (c + d)[|c|..];
    }
  }

  lemma {:induction false} ReturnedIff(rows: seq<Row>, q: Query, limit: nat, m: nat, cap: nat)
    requires limit > 0 && cap > 0
    ensures |ReturnedPages(rows, q, limit, m, cap)| == |FirstPages(rows, q, limit, m, cap)|
    ensures ReturnedPages(rows, q, limit, m, cap) == FirstPages(rows, q, limit, m, cap) <==> Unshifted(rows, q, limit, m, cap)
  {
    hide WholeReport, ReturnedPage, Shift, PageStart;
    if m > 0 {
      var start := PageStart(m - 1, limit);
      ReturnedIff(rows, q, limit, m - 1, cap);
      PageIsSliceIff(rows, q, limit, start, cap);
      SplitEqual(ReturnedPages(rows, q, limit, m - 1, cap), ReturnedPage(rows, q, limit, start, cap),
                 FirstPages(rows, q, limit, m - 1, cap), PageOf(rows, q, limit, start, cap));
    }
  }

  /**
   Consecutive pages that reach the end of the report, as they are returned: together
   they are the whole report exactly when a page is no larger than the server's cap or
   the whole report fits under it, and no page is short of the balance it starts from.
   */
  lemma PagesMakeTheWholeIff(rows: seq<Row>, q: Query, limit: nat, m: nat, cap: nat)
    requires PageStart(m, limit) >= |WholeReport(rows, q)|
    ensures ReturnedPages(rows, q, limit, m, cap) == WholeReport(rows, q)
       <==> (limit <= cap || |WholeReport(rows, q)| <= cap) && Unshifted(rows, q, limit, m, cap)
  {
    hide WholeReport, FirstPages, ReturnedPages, PageStart, Unshifted;
    if limit == 0 || cap == 0 {
      EmptyPages(rows, q, limit, m, cap);
      return;
    }
    ReturnedIff(rows, q, limit, m, cap);
    if limit <= cap {
      FullPages(rows, q, limit, m, cap);
    } else if m == 0 {
      FirstStart(limit);
      NoPages(rows, q, limit, cap);
    } else {
      ShortPages(rows, q, limit, m, cap);
    }
  }

  lemma {:induction false} EmptyPages(rows: seq<Row>, q: Query, limit: nat, m: nat, cap: nat)
    requires limit == 0 || cap == 0
    ensures ReturnedPages(rows, q, limit, m, cap) == []
    ensures limit == 0 ==> PageStart(m, limit) == 0
    ensures |WholeReport(rows, q)| == 0 ==> Unshifted(rows, q, limit, m, cap)
  {
    hide Shift, Filter;
    if m > 0 { EmptyPages(rows, q, limit, m - 1, cap); }
  }

  lemma NoPages(rows: seq<Row>, q: Query, limit: nat, cap: nat)
    ensures FirstPages(rows, q, limit, 0, cap) == []
  {
  }

  /** So many rows of one day on one account. */
  function Repeated(n: nat): seq<Row> { seq(n, i => Row("cash", 0, 1, 0, "SAR", NoBase, FromJournal(0))) }

  const EVERYTHING := Query((r: Row) => true, 0, 0)

  /**
   The failing input: 1500 rows read 2000 at a time from a server that returns at
   most 1000. However many pages are read, the last 500 rows never come.
   */
  lemma LargePagesLoseRows(m: nat)
    requires m > 0
    ensures |WholeReport(Repeated(1500), EVERYTHING)| == 1500
    ensures |ReturnedPages(Repeated(1500), EVERYTHING, 2000, m, 1000)| == 1000
  {
    hide Repeated, Running, Carried;
    FilterAll(Repeated(1500), InPeriod(EVERYTHING)) by { RepeatedInPeriod(1500); }
    assert |Repeated(1500)| == 1500 by { RepeatedInPeriod(1500); }
    if m > 1 { LargePagesLoseRows(m - 1); }
  }

  lemma RepeatedInPeriod(n: nat)
    ensures |Repeated(n)| == n && forall r :: r in Repeated(n) ==> InPeriod(EVERYTHING)(r)
    ensures Filter(Repeated(n), InPeriod(EVERYTHING)) == Repeated(n) && Filter(Repeated(n), Before(EVERYTHING)) == []
  {
    FilterAll(Repeated(n), InPeriod(EVERYTHING));
    FilterNone(Repeated(n), Before(EVERYTHING));
  }

  lemma {:induction false} RepeatedNet(rows: seq<Row>)
    requires forall r :: r in rows ==> NetRow()(r) == 1
    ensures Sum(rows, NetRow()) == |rows|
  {
    if rows != [] { RepeatedNet(rows[..|rows| - 1]); }
  }

  /**
   The failing input below a cap of a full chunk: 1500 rows of net one read 500 at a
   time under a cap of 500. No row is lost, but the third page starts 500 short.
   */
  lemma ThirdPageIsShort()
    ensures Shift(Repeated(1500), EVERYTHING, 1000, 500) == 500
    ensures ReturnedPages(Repeated(1500), EVERYTHING, 500, 3, 500) != WholeReport(Repeated(1500), EVERYTHING)
    ensures |ReturnedPages(Repeated(1500), EVERYTHING, 500, 3, 500)| == 1500
  {
    hide Filter, Sum, Running, ReturnedPages, FirstPages, Carried;
    RepeatedInPeriod(1500);
    NothingMissed();
    var missed := MissedBefore(Repeated(1500), 1000, 500);
    assert missed == Repeated(1500)[500..1000];
    RepeatedNet(missed);
    assert PageStart(2, 500) == 1000 && PageStart(3, 500) == 1500;
    PagesMakeTheWholeIff(Repeated(1500), EVERYTHING, 500, 3, 500);
    ReturnedIff(Repeated(1500), EVERYTHING, 500, 3, 500);
    FullPages(Repeated(1500), EVERYTHING, 500, 3, 500);
  }
}
