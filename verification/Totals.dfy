/** Dashboard totals: what the summary table answers, against what the log of counted entries says. */
module Totals {
  import opened Wrappers
  import opened Clock
  import opened Counting
  import opened DailySummary

  /** SUM, MIN and MAX over a selection; None is SQL's NULL of an empty selection. */
  datatype Tally = Tally(
    count: nat, firstAt: Option<int>, lastAt: Option<int>, firstDate: Option<int>, lastDate: Option<int>)

  const NOTHING := Tally(0, None, None, None, None)

  function Least(a: Option<int>, b: Option<int>): Option<int> {
    if a.None? then b else if b.None? then a else Some(if b.value < a.value then b.value else a.value)
  }

  function Greatest(a: Option<int>, b: Option<int>): Option<int> {
    if a.None? then b else if b.None? then a else Some(if b.value > a.value then b.value else a.value)
  }

  function Merge(a: Tally, b: Tally): Tally {
    Tally(a.count + b.count, Least(a.firstAt, b.firstAt), Greatest(a.lastAt, b.lastAt),
          Least(a.firstDate, b.firstDate), Greatest(a.lastDate, b.lastDate))
  }

  function OfEntry(e: Entry): Tally {
    Tally(1, Some(e.completedAt), Some(e.completedAt), Some(e.Date()), Some(e.Date()))
  }

  function OfRow(row: Summary): Tally {
    Tally(row.productionCount, Some(row.firstAt), Some(row.lastAt), Some(row.date), Some(row.date))
  }

  function SelectedRow(row: Summary, q: Summary -> bool): Tally { if q(row) then OfRow(row) else NOTHING }

  function Contribution(e: Entry, p: Entry -> bool): Tally { if p(e) then OfEntry(e) else NOTHING }

  /** `SELECT SUM(production_count), MIN(first_completed_at), MAX(last_completed_at), MIN(production_date),
      MAX(production_date) ... WHERE q`. */
  function SelectTotals(rows: seq<Summary>, q: Summary -> bool): Tally {
    if rows == [] then NOTHING
    else Merge(SelectTotals(rows[..|rows| - 1], q), SelectedRow(rows[|rows| - 1], q))
  }

  /** The same question asked of the log itself. */
  function LogTotals(log: seq<Entry>, p: Entry -> bool): Tally {
    if log == [] then NOTHING
    else Merge(LogTotals(log[..|log| - 1], p),
               Contribution(log[|log| - 1], p))
  }

  lemma MergeSwaps(a: Tally, b: Tally, c: Tally)
    ensures Merge(Merge(a, b), c) == Merge(Merge(a, c), b)
  {
  }

  lemma MergeAssociates(a: Tally, b: Tally, c: Tally)
    ensures Merge(a, Merge(b, c)) == Merge(Merge(a, b), c)
  {
  }

  /** Changing one row changes the totals by what the row gained. */
  lemma {:induction false} TotalsAfterUpdate(rows: seq<Summary>, i: nat, row: Summary, gain: Tally, q: Summary -> bool)
    requires i < |rows| && q(row) == q(rows[i])
    requires OfRow(row) == Merge(OfRow(rows[i]), gain)
    ensures SelectTotals(rows[i := row], q)
            == if q(row) then Merge(SelectTotals(rows, q), gain) else SelectTotals(rows, q)
  {
    var n := |rows| - 1;
    if i == n {
      assert rows[i := row][..n] == rows[..n];
      MergeAssociates(SelectTotals(rows[..n], q), OfRow(rows[i]), gain);
    } else {
      TotalsAfterUpdate(rows[..n], i, row, gain, q);
      assert rows[i := row][..n] == rows[..n][i := row];
      MergeSwaps(SelectTotals(rows[..n], q), SelectedRow(rows[n], q), gain);
    }
  }

  ghost predicate SameSelection(q: Summary -> bool, p: Entry -> bool) {
    forall row: Summary, e: Entry :: row.Key() == e.Key() ==> q(row) == p(e)
  }

  lemma TotalsAfterIncrement(rows: seq<Summary>, e: Entry, q: Summary -> bool, p: Entry -> bool)
    requires SameSelection(q, p)
    ensures SelectTotals(Increment(rows, e), q)
            == Merge(SelectTotals(rows, q), if p(e) then OfEntry(e) else NOTHING)
  {
    var at := Find(rows, e.Key());
    if at == |rows| {
      assert (rows + [NewRow(e)])[..|rows|] == rows;
      assert NewRow(e).Key() == e.Key();
    } else {
      TotalsWithinRow(rows[at], e);
      assert CountedRow(rows[at], e).Key() == e.Key();
      TotalsAfterUpdate(rows, at, CountedRow(rows[at], e), OfEntry(e), q);
    }
  }

  lemma TotalsWithinRow(row: Summary, e: Entry)
    requires row.Key() == e.Key()
    ensures OfRow(CountedRow(row, e)) == Merge(OfRow(row), OfEntry(e))
  {
  }

  /** A selection that depends on the grouping key alone is answered exactly by the summary table. */
  lemma {:induction false} KeySelectionsAreExact(log: seq<Entry>, q: Summary -> bool, p: Entry -> bool)
    requires SameSelection(q, p)
    ensures SelectTotals(Rebuild(log), q) == LogTotals(log, p)
  {
    if log != [] {
      KeySelectionsAreExact(log[..|log| - 1], q, p);
      TotalsAfterIncrement(Rebuild(log[..|log| - 1]), log[|log| - 1], q, p);
    }
  }

  // ---------------------------------------------------------------------------------------------
  // Dashboard filters

  /** The optional filters of the dashboard routes; dates are day numbers. */
  datatype Filter = Filter(
    dateFrom: Option<int>, dateTo: Option<int>, tableNo: Option<string>, model: Option<string>,
    customerId: Option<int>, batchNumber: Option<string>, operatorId: Option<int>)
  {
    /** `column = ?`; a NULL column never compares equal. */
    predicate Accepts(date: int, table: string, mod: string,
                      customer: Option<int>, batch: Option<string>, operator: Option<int>) {
      && (dateFrom.Some? ==> date >= dateFrom.value)
      && (dateTo.Some? ==> date <= dateTo.value)
      && (tableNo.Some? ==> table == tableNo.value)
      && (model.Some? ==> mod == model.value)
      && (customerId.Some? ==> customer == customerId)
      && (batchNumber.Some? ==> batch == batchNumber)
      && (operatorId.Some? ==> operator == operatorId)
    }

    predicate AcceptsRow(row: Summary) {
      Accepts(row.date, row.tableNo, row.model, row.customerId, row.batchNumber, row.operatorId)
    }

    predicate AcceptsEntry(e: Entry) {
      Accepts(e.Date(), e.tableNo, e.model, e.customerId, e.batchNumber, e.operatorId)
    }

    /** The filter asks for an id that the grouping key uses to stand for NULL. */
    predicate AsksForSentinelId() {
      customerId == Some(SUMMARY_INT_SENTINEL) || operatorId == Some(SUMMARY_INT_SENTINEL)
    }

    predicate AsksForSentinelBatch() { batchNumber == Some(SUMMARY_TEXT_SENTINEL) }

    predicate AsksForSentinel() { AsksForSentinelId() || AsksForSentinelBatch() }

    predicate EmptyDateRange() {
      dateFrom.Some? && dateTo.Some? && dateFrom.value > dateTo.value
    }
  }

  predicate UsesSentinel(e: Entry) {
    || e.customerId == Some(SUMMARY_INT_SENTINEL)
    || e.operatorId == Some(SUMMARY_INT_SENTINEL)
    || e.batchNumber == Some(SUMMARY_TEXT_SENTINEL)
  }

  /** query_production_summary_totals. */
  function QueryTotals(rows: seq<Summary>, f: Filter): Tally {
    SelectTotals(rows, (row: Summary) => f.AcceptsRow(row))
  }

  function CountedTotals(log: seq<Entry>, f: Filter): Tally {
    LogTotals(log, (e: Entry) => f.AcceptsEntry(e))
  }

  // ---------------------------------------------------------------------------------------------
  // What a filter asks for, in columns

  /** The entry was completed on a day within the range, and each column that is asked for is equal. */
  predicate Asked(f: Filter, e: Entry) {
    && (f.dateFrom.Some? ==> f.dateFrom.value * 86_400 <= e.completedAt)
    && (f.dateTo.Some? ==> e.completedAt < (f.dateTo.value + 1) * 86_400)
    && (f.tableNo.Some? ==> e.tableNo == f.tableNo.value)
    && (f.model.Some? ==> e.model == f.model.value)
    && (f.customerId.Some? ==> e.customerId == Some(f.customerId.value))
    && (f.batchNumber.Some? ==> e.batchNumber == Some(f.batchNumber.value))
    && (f.operatorId.Some? ==> e.operatorId == Some(f.operatorId.value))
  }

  lemma AcceptsWhatIsAsked(f: Filter, e: Entry)
    ensures f.AcceptsEntry(e) <==> Asked(f, e)
  {
    DateIsTheDay(e, e.Date());
  }

  /** A row is selected by its own columns; NULL is never equal. */
  lemma AcceptsRowColumns(f: Filter, row: Summary)
    ensures f.AcceptsRow(row) <==>
      && (f.dateFrom.Some? ==> f.dateFrom.value <= row.date) && (f.dateTo.Some? ==> row.date <= f.dateTo.value)
      && (f.tableNo.Some? ==> row.tableNo == f.tableNo.value) && (f.model.Some? ==> row.model == f.model.value)
      && (f.customerId.Some? ==> row.customerId == Some(f.customerId.value))
      && (f.batchNumber.Some? ==> row.batchNumber == Some(f.batchNumber.value))
      && (f.operatorId.Some? ==> row.operatorId == Some(f.operatorId.value))
  {
  }

  ghost predicate EarliestAsked(at: Option<int>, log: seq<Entry>, f: Filter) {
    if at.None? then forall k :: 0 <= k < |log| ==> !Asked(f, log[k])
    else
      && (exists k :: 0 <= k < |log| && Asked(f, log[k]) && log[k].completedAt == at.value)
      && forall k :: 0 <= k < |log| && Asked(f, log[k]) ==> at.value <= log[k].completedAt
  }

  ghost predicate LatestAsked(at: Option<int>, log: seq<Entry>, f: Filter) {
    if at.None? then forall k :: 0 <= k < |log| ==> !Asked(f, log[k])
    else
      && (exists k :: 0 <= k < |log| && Asked(f, log[k]) && log[k].completedAt == at.value)
      && forall k :: 0 <= k < |log| && Asked(f, log[k]) ==> log[k].completedAt <= at.value
  }

  predicate DayOf(day: Option<int>, at: Option<int>) {
    if at.None? then day.None? else day.Some? && day.value * 86_400 <= at.value < (day.value + 1) * 86_400
  }

  /** The number of entries asked for, and the times and days of the first and the last of them. */
  ghost predicate PlainTally(t: Tally, log: seq<Entry>, f: Filter) {
    && t.count == |Positions(log, (e: Entry) => Asked(f, e))|
    && EarliestAsked(t.firstAt, log, f) && LatestAsked(t.lastAt, log, f)
    && DayOf(t.firstDate, t.firstAt) && DayOf(t.lastDate, t.lastAt)
  }

  lemma EarliestGrows(at: Option<int>, log: seq<Entry>, f: Filter)
    requires log != [] && EarliestAsked(at, log[..|log| - 1], f)
    ensures var e := log[|log| - 1]; EarliestAsked(if Asked(f, e) then Least(at, Some(e.completedAt)) else at, log, f)
  {
    var n := |log| - 1;
    assert forall k :: 0 <= k < n ==> log[..n][k] == log[k];
    if at.Some? {
      var k :| 0 <= k < n && Asked(f, log[..n][k]) && log[..n][k].completedAt == at.value;
      assert Asked(f, log[k]) && log[k].completedAt == at.value;
    }
  }

  lemma LatestGrows(at: Option<int>, log: seq<Entry>, f: Filter)
    requires log != [] && LatestAsked(at, log[..|log| - 1], f)
    ensures var e := log[|log| - 1]; LatestAsked(if Asked(f, e) then Greatest(at, Some(e.completedAt)) else at, log, f)
  {
    var n := |log| - 1;
    assert forall k :: 0 <= k < n ==> log[..n][k] == log[k];
    if at.Some? {
      var k :| 0 <= k < n && Asked(f, log[..n][k]) && log[..n][k].completedAt == at.value;
      assert Asked(f, log[k]) && log[k].completedAt == at.value;
    }
  }

  lemma DaysMerge(t: Tally, e: Entry)
    requires DayOf(t.firstDate, t.firstAt) && DayOf(t.lastDate, t.lastAt)
    ensures var r := Merge(t, OfEntry(e)); DayOf(r.firstDate, r.firstAt) && DayOf(r.lastDate, r.lastAt)
  {
    DateIsTheDay(e, e.Date());
  }

  lemma {:induction false} LogTotalsArePlain(log: seq<Entry>, f: Filter)
    ensures PlainTally(CountedTotals(log, f), log, f)
  {
    if log == [] {
      assert Positions(log, (e: Entry) => Asked(f, e)) == {};
    } else {
      var before, e := log[..|log| - 1], log[|log| - 1];
      LogTotalsArePlain(before, f);
      AcceptsWhatIsAsked(f, e);
      PositionsGrow(log, (e: Entry) => Asked(f, e));
      EarliestGrows(CountedTotals(before, f).firstAt, log, f);
      LatestGrows(CountedTotals(before, f).lastAt, log, f);
      DaysMerge(CountedTotals(before, f), e);
      MergeNothing(CountedTotals(before, f));
    }
  }

  lemma MergeNothing(t: Tally)
    ensures Merge(t, NOTHING) == t
  {
  }

  lemma OnePlainTally(t: Tally, u: Tally, log: seq<Entry>, f: Filter)
    requires PlainTally(t, log, f) && PlainTally(u, log, f)
    ensures t == u
  {
  }

  /** The totals over a log are the plain ones, and no others are. */
  lemma PlainTallyIsCounted(t: Tally, log: seq<Entry>, f: Filter)
    ensures PlainTally(t, log, f) <==> t == CountedTotals(log, f)
  {
    LogTotalsArePlain(log, f);
    if PlainTally(t, log, f) {
      OnePlainTally(t, CountedTotals(log, f), log, f);
    }
  }

  // ---------------------------------------------------------------------------------------------
  // Which filters are answered exactly

  /** Whatever was counted and in whatever order, a filter that asks for no sentinel is answered exactly. */
  lemma FilterIsExact(log: seq<Entry>, f: Filter)
    requires !f.AsksForSentinel()
    ensures QueryTotals(Rebuild(log), f) == CountedTotals(log, f) && PlainTally(QueryTotals(Rebuild(log), f), log, f)
  {
    PlainTallyIsCounted(CountedTotals(log, f), log, f);
    KeySelectionsAreExact(log, (row: Summary) => f.AcceptsRow(row), (e: Entry) => f.AcceptsEntry(e));
  }

  ghost predicate NoRowAccepted(rows: seq<Summary>, f: Filter) {
    forall i :: 0 <= i < |rows| ==> !f.AcceptsRow(rows[i])
  }

  lemma {:induction false} NothingAccepted(log: seq<Entry>, f: Filter)
    requires forall i :: 0 <= i < |log| ==> !f.AcceptsEntry(log[i])
    ensures NoRowAccepted(Rebuild(log), f) && CountedTotals(log, f) == NOTHING
  {
    if log != [] {
      NothingAccepted(log[..|log| - 1], f);
    }
  }

  lemma {:induction false} NoRowTotals(rows: seq<Summary>, f: Filter)
    requires NoRowAccepted(rows, f)
    ensures QueryTotals(rows, f) == NOTHING
  {
    if rows != [] {
      NoRowTotals(rows[..|rows| - 1], f);
    }
  }

  /** As long as no id equals a sentinel, every filter at all is answered exactly. */
  lemma {:induction false} SentinelFreeLogIsExact(log: seq<Entry>, f: Filter)
    requires forall i :: 0 <= i < |log| ==> !UsesSentinel(log[i])
    ensures QueryTotals(Rebuild(log), f) == CountedTotals(log, f) && PlainTally(QueryTotals(Rebuild(log), f), log, f)
  {
    PlainTallyIsCounted(CountedTotals(log, f), log, f);
    if f.AsksForSentinel() {
      NothingAccepted(log, f);
      NoRowTotals(Rebuild(log), f);
    } else {
      FilterIsExact(log, f);
    }
  }

  predicate UsesSentinelBatch(e: Entry) { e.batchNumber == Some(SUMMARY_TEXT_SENTINEL) }

  /** Filters whose answers need no assumption about ids. An empty batch number and an empty date range match nothing. */
  predicate Trusted(f: Filter) { !f.AsksForSentinelId() || f.AsksForSentinelBatch() || f.EmptyDateRange() }

  /** As long as no batch number is empty, a trusted filter is answered exactly. */
  lemma {:induction false} TrustedFilterIsExact(log: seq<Entry>, f: Filter)
    requires forall i :: 0 <= i < |log| ==> !UsesSentinelBatch(log[i])
    requires Trusted(f)
    ensures QueryTotals(Rebuild(log), f) == CountedTotals(log, f) && PlainTally(QueryTotals(Rebuild(log), f), log, f)
  {
    PlainTallyIsCounted(CountedTotals(log, f), log, f);
    if f.AsksForSentinelBatch() || f.EmptyDateRange() {
      NothingAccepted(log, f);
      NoRowTotals(Rebuild(log), f);
    } else {
      FilterIsExact(log, f);
    }
  }

  lemma RebuildPair(a: Entry, b: Entry)
    requires a.Key() == b.Key()
    ensures Rebuild([a, b]) == [CountedRow(NewRow(a), b)]
  {
    assert [a, b][..1] == [a] && [a][..0] == [];
    assert Rebuild([a]) == [NewRow(a)];
    assert NewRow(a).Key() == b.Key();
  }

  lemma PairTotals(f: Filter, silent: Entry, asked: Entry)
    requires !f.AcceptsEntry(silent) && f.AcceptsEntry(asked)
    ensures CountedTotals([silent, asked], f).count == 1
  {
    assert [silent, asked][..1] == [silent] && [silent][..0] == [];
    NothingAccepted([silent], f);
  }

  /** Of two productions with one key, the filter accepts only the second: the table answers for the first. */
  lemma ConflationMiscounts(f: Filter, silent: Entry, asked: Entry)
    requires silent.Key() == asked.Key() && !Asked(f, silent) && Asked(f, asked)
    ensures QueryTotals(Rebuild([silent, asked]), f).count == 0 && CountedTotals([silent, asked], f).count == 1
    ensures !PlainTally(QueryTotals(Rebuild([silent, asked]), f), [silent, asked], f)
  {
    AcceptsWhatIsAsked(f, silent);
    AcceptsWhatIsAsked(f, asked);
    PlainTallyIsCounted(QueryTotals(Rebuild([silent, asked]), f), [silent, asked], f);
    PairTotals(f, silent, asked);
    RebuildPair(silent, asked);
    var row := CountedRow(NewRow(silent), asked);
    assert !f.AcceptsRow(row);
    NoRowTotals([row], f);
  }

  /** `SUM(production_count)` over the whole table. */
  function GrandCount(rows: seq<Summary>): nat { SelectTotals(rows, row => true).count }

  /** Unfiltered, the table counts every entry ever logged. */
  lemma {:induction false} GrandTotal(log: seq<Entry>)
    ensures GrandCount(Rebuild(log)) == |log|
  {
    KeySelectionsAreExact(log, row => true, e => true);
    LogTotalsCountsAll(log);
  }

  lemma {:induction false} LogTotalsCountsAll(log: seq<Entry>)
    ensures LogTotals(log, e => true).count == |log|
  {
    if log != [] {
      LogTotalsCountsAll(log[..|log| - 1]);
    }
  }

  // ---------------------------------------------------------------------------------------------
  // Order of counting

  lemma {:induction false} LogTotalsRemove(log: seq<Entry>, i: nat, p: Entry -> bool)
    requires i < |log|
    ensures LogTotals(log, p) == Merge(LogTotals(Dropping(log, i), p), Contribution(log[i], p))
  {
    var n := |log| - 1;
    var rest := Dropping(log, i);
    if i == n {
      assert rest == log[..n];
    } else {
      LogTotalsRemove(log[..n], i, p);
      assert rest[..n - 1] == Dropping(log[..n], i);
      assert rest[n - 1] == log[n];
      MergeSwaps(LogTotals(rest[..n - 1], p), Contribution(log[i], p), Contribution(log[n], p));
    }
  }

  lemma {:induction false} LogTotalsIgnoreOrder(a: seq<Entry>, b: seq<Entry>, p: Entry -> bool)
    requires multiset(a) == multiset(b)
    ensures LogTotals(a, p) == LogTotals(b, p)
    decreases |a|
  {
    if a == [] {
      assert |b| == |multiset(b)| == 0;
    } else {
      var i := FirstInPermutation(a, b);
      LogTotalsIgnoreOrder(a[1..], Dropping(b, i), p);
      LogTotalsRemove(b, i, p);
      LogTotalsRemove(a, 0, p);
      assert Dropping(a, 0) == a[1..];
    }
  }

  /** What the summary table shows for one group. */
  function GroupTotals(rows: seq<Summary>, key: GroupKey): Tally {
    SelectTotals(rows, (row: Summary) => row.Key() == key)
  }

  /** Counting the same productions in another order yields, group by group, the same count and
      the same first and last completion time. */
  lemma {:induction false} OrderOfCountingIsIrrelevant(a: seq<Entry>, b: seq<Entry>, key: GroupKey)
    requires multiset(a) == multiset(b)
    ensures GroupTotals(Rebuild(a), key) == GroupTotals(Rebuild(b), key)
  {
    var q, p := (row: Summary) => row.Key() == key, (e: Entry) => e.Key() == key;
    KeySelectionsAreExact(a, q, p);
    KeySelectionsAreExact(b, q, p);
    LogTotalsIgnoreOrder(a, b, p);
  }
}
