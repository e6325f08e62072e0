/** The permanent daily production counts: an incremental aggregate over a stream of entries. */
module DailySummary {
  import opened Wrappers
  import opened Clock
  import opened Counting

  const SUMMARY_INT_SENTINEL: int := -1
  const SUMMARY_TEXT_SENTINEL: string := ""

  /** Display columns that are not part of the grouping key. */
  datatype Labels = Labels(
    customerName: Option<string>,
    operatorName: Option<string>,
    numberOfOperators: Option<int>)

  /** The grouping key after COALESCE has replaced NULLs by the sentinels. */
  datatype GroupKey = GroupKey(
    date: int, machineId: string, tableNo: string, model: string,
    customerId: int, batchNumber: string, operatorId: int)

  function CoalesceInt(value: Option<int>): int {
    if value.Some? then value.value else SUMMARY_INT_SENTINEL
  }

  function CoalesceText(value: Option<string>): string {
    if value.Some? then value.value else SUMMARY_TEXT_SENTINEL
  }

  /** `COALESCE(new, old)`. */
  function Latest<T>(newer: Option<T>, older: Option<T>): Option<T> {
    if newer.Some? then newer else older
  }

  /** One production to be counted. */
  datatype Entry = Entry(
    completedAt: int, machineId: string, tableNo: string, model: string,
    customerId: Option<int>, batchNumber: Option<string>, operatorId: Option<int>,
    ack: string, labels: Labels)
  {
    function Date(): int { completedAt / DAY_SECONDS }

    function Key(): GroupKey {
      GroupKey(Date(), machineId, tableNo, model,
               CoalesceInt(customerId), CoalesceText(batchNumber), CoalesceInt(operatorId))
    }
  }

  /** A row of daily_production_summary. Its id is its position: rows are never deleted. */
  datatype Summary = Summary(
    date: int, machineId: string, tableNo: string, model: string,
    customerId: Option<int>, batchNumber: Option<string>, operatorId: Option<int>,
    labels: Labels, productionCount: nat,
    firstAck: string, lastAck: string, firstAt: int, lastAt: int)
  {
    function Key(): GroupKey {
      GroupKey(date, machineId, tableNo, model,
               CoalesceInt(customerId), CoalesceText(batchNumber), CoalesceInt(operatorId))
    }
  }

  /** `SELECT ... WHERE <coalesced key> LIMIT 1`; |rows| when nothing matches. */
  function Find(rows: seq<Summary>, key: GroupKey): (i: nat)
    ensures i <= |rows|
    ensures i < |rows| ==> rows[i].Key() == key
    ensures forall j :: 0 <= j < i ==> rows[j].Key() != key
  {
    if rows == [] then 0
    else if rows[0].Key() == key then 0
    else 1 + Find(rows[1..], key)
  }

  function NewRow(e: Entry): Summary {
    Summary(e.Date(), e.machineId, e.tableNo, e.model, e.customerId, e.batchNumber, e.operatorId,
            e.labels, 1, e.ack, e.ack, e.completedAt, e.completedAt)
  }

  function CountedRow(row: Summary, e: Entry): Summary {
    var earlier := e.completedAt < row.firstAt;
    var notBefore := e.completedAt >= row.lastAt;
    row.(productionCount := row.productionCount + 1,
         firstAck := if earlier then e.ack else row.firstAck,
         firstAt := if earlier then e.completedAt else row.firstAt,
         lastAck := if notBefore then e.ack else row.lastAck,
         lastAt := if notBefore then e.completedAt else row.lastAt,
         labels := Labels(Latest(e.labels.customerName, row.labels.customerName),
                          Latest(e.labels.operatorName, row.labels.operatorName),
                          Latest(e.labels.numberOfOperators, row.labels.numberOfOperators)))
  }

  /** `_increment_daily_summary`. */
  function Increment(rows: seq<Summary>, e: Entry): seq<Summary> {
    var i := Find(rows, e.Key());
    if i == |rows| then rows + [NewRow(e)] else rows[i := CountedRow(rows[i], e)]
  }

  /** The table that results from counting a whole log, oldest first. */
  function Rebuild(log: seq<Entry>): seq<Summary> {
    if log == [] then [] else Increment(Rebuild(log[..|log| - 1]), log[|log| - 1])
  }

  // ---------------------------------------------------------------------------------------------
  // Reference definition: what a group of entries amounts to, said without any increment.

  /** The entries of one group, in the order they were counted. */
  function Group(log: seq<Entry>, key: GroupKey): seq<Entry> {
    if log == [] then []
    else
      var last := log[|log| - 1];
      Group(log[..|log| - 1], key) + if last.Key() == key then [last] else []
  }

  ghost predicate FirstMinimum(g: seq<Entry>, i: nat) {
    && i < |g|
    && (forall j :: 0 <= j < |g| ==> g[i].completedAt <= g[j].completedAt)
    && (forall j :: 0 <= j < i ==> g[i].completedAt < g[j].completedAt)
  }

  ghost predicate LastMaximum(g: seq<Entry>, i: nat) {
    && i < |g|
    && (forall j :: 0 <= j < |g| ==> g[j].completedAt <= g[i].completedAt)
    && (forall j :: i < j < |g| ==> g[j].completedAt < g[i].completedAt)
  }

  /** What the column at holds in the latest entry that has a value there; nothing when no entry has. */
  ghost predicate IsLatest<T>(g: seq<Entry>, at: Entry -> Option<T>, shown: Option<T>) {
    if shown.None? then forall i :: 0 <= i < |g| ==> at(g[i]).None?
    else exists i: nat :: i < |g| && at(g[i]) == shown && forall j :: i < j < |g| ==> at(g[j]).None?
  }

  ghost predicate ShowsLatest(shown: Labels, g: seq<Entry>) {
    && IsLatest(g, (e: Entry) => e.labels.customerName, shown.customerName)
    && IsLatest(g, (e: Entry) => e.labels.operatorName, shown.operatorName)
    && IsLatest(g, (e: Entry) => e.labels.numberOfOperators, shown.numberOfOperators)
  }

  /** The row is the plain aggregate of the group: the count, the minimum and maximum completion times,
      the ACK of the earliest-counted minimum and of the latest-counted maximum, the latest known labels. */
  ghost predicate Aggregates(row: Summary, g: seq<Entry>) {
    && row.productionCount == |g|
    && (exists i: nat :: FirstMinimum(g, i) && g[i].completedAt == row.firstAt && g[i].ack == row.firstAck)
    && (exists i: nat :: LastMaximum(g, i) && g[i].completedAt == row.lastAt && g[i].ack == row.lastAck)
    && ShowsLatest(row.labels, g)
  }

  lemma LatestGrows<T>(g: seq<Entry>, e: Entry, at: Entry -> Option<T>, shown: Option<T>)
    requires IsLatest(g, at, shown)
    ensures IsLatest(g + [e], at, Latest(at(e), shown))
  {
    var grown := g + [e];
    if at(e).Some? {
      assert at(grown[|g|]) == at(e);
    } else if shown.Some? {
      var i: nat :| i < |g| && at(g[i]) == shown && forall j :: i < j < |g| ==> at(g[j]).None?;
      assert at(grown[i]) == shown && forall j :: i < j < |grown| ==> at(grown[j]).None?;
    }
  }

  lemma LabelsGrow(row: Summary, g: seq<Entry>, e: Entry)
    requires ShowsLatest(row.labels, g)
    ensures ShowsLatest(CountedRow(row, e).labels, g + [e])
  {
    LatestGrows(g, e, (e: Entry) => e.labels.customerName, row.labels.customerName);
    LatestGrows(g, e, (e: Entry) => e.labels.operatorName, row.labels.operatorName);
    LatestGrows(g, e, (e: Entry) => e.labels.numberOfOperators, row.labels.numberOfOperators);
  }

  lemma LabelsStart<T>(e: Entry, at: Entry -> Option<T>)
    ensures IsLatest([e], at, at(e))
  {
    assert at([e][0]) == at(e);
  }

  ghost predicate OneRowPerKey(rows: seq<Summary>) {
    forall i, j :: 0 <= i < j < |rows| ==> rows[i].Key() != rows[j].Key()
  }

  ghost predicate RowsAggregate(rows: seq<Summary>, log: seq<Entry>) {
    forall i :: 0 <= i < |rows| ==> Aggregates(rows[i], Group(log, rows[i].Key()))
  }

  ghost predicate CoversGroup(rows: seq<Summary>, log: seq<Entry>, key: GroupKey) {
    Group(log, key) != [] <==> Find(rows, key) < |rows|
  }

  /** rows is, group by group, the aggregate of the log, with one row for each group and no other row. */
  ghost predicate Summarises(rows: seq<Summary>, log: seq<Entry>) {
    && OneRowPerKey(rows)
    && RowsAggregate(rows, log)
    && forall key :: CoversGroup(rows, log, key)
  }

  lemma FirstMinimumGrows(g: seq<Entry>, i: nat, e: Entry)
    requires FirstMinimum(g, i)
    ensures FirstMinimum(g + [e], if e.completedAt < g[i].completedAt then |g| else i)
  {
  }

  lemma LastMaximumGrows(g: seq<Entry>, i: nat, e: Entry)
    requires LastMaximum(g, i)
    ensures LastMaximum(g + [e], if e.completedAt >= g[i].completedAt then |g| else i)
  {
  }

  lemma CountedRowAggregates(row: Summary, g: seq<Entry>, e: Entry)
    requires Aggregates(row, g)
    ensures Aggregates(CountedRow(row, e), g + [e])
  {
    var counted, grown := CountedRow(row, e), g + [e];
    var lo: nat :| FirstMinimum(g, lo) && g[lo].completedAt == row.firstAt && g[lo].ack == row.firstAck;
    var hi: nat :| LastMaximum(g, hi) && g[hi].completedAt == row.lastAt && g[hi].ack == row.lastAck;
    FirstMinimumGrows(g, lo, e);
    LastMaximumGrows(g, hi, e);
    LabelsGrow(row, g, e);
  }

  lemma NewRowAggregates(e: Entry)
    ensures Aggregates(NewRow(e), [e])
  {
    assert FirstMinimum([e], 0) && LastMaximum([e], 0);
    LabelsStart(e, (e: Entry) => e.labels.customerName);
    LabelsStart(e, (e: Entry) => e.labels.operatorName);
    LabelsStart(e, (e: Entry) => e.labels.numberOfOperators);
  }

  lemma GroupAppend(log: seq<Entry>, e: Entry, key: GroupKey)
    ensures Group(log + [e], key) == if e.Key() == key then Group(log, key) + [e] else Group(log, key)
  {
    assert (log + [e])[..|log|] == log;
  }

  /** Key lookup is insensitive to counting, except that the counted key now has a row. */
  lemma FindAfterIncrement(rows: seq<Summary>, e: Entry, key: GroupKey)
    ensures Find(Increment(rows, e), key) < |Increment(rows, e)|
            <==> Find(rows, key) < |rows| || key == e.Key()
  {
    var rows', at := Increment(rows, e), Find(rows, e.Key());
    assert rows'[at].Key() == e.Key();
    assert forall j :: 0 <= j < |rows| ==> rows'[j].Key() == rows[j].Key();
  }

  lemma IncrementAggregates(rows: seq<Summary>, log: seq<Entry>, e: Entry, i: nat)
    requires i < |Increment(rows, e)|
    requires RowsAggregate(rows, log) && OneRowPerKey(rows)
    requires CoversGroup(rows, log, e.Key())
    ensures Aggregates(Increment(rows, e)[i], Group(log + [e], Increment(rows, e)[i].Key()))
  {
    var at := Find(rows, e.Key());
    if i == at && at == |rows| {
      NewRowAggregates(e);
      GroupAppend(log, e, e.Key());
      assert Group(log, e.Key()) + [e] == [e];
    } else {
      var key := rows[i].Key();
      assert Aggregates(rows[i], Group(log, key));
      GroupAppend(log, e, key);
      if i == at {
        CountedRowAggregates(rows[i], Group(log, key), e);
      } else {
        assert key != e.Key();
      }
    }
  }

  lemma IncrementKeepsKeysDistinct(rows: seq<Summary>, e: Entry)
    requires OneRowPerKey(rows)
    ensures OneRowPerKey(Increment(rows, e))
  {
    var rows', at := Increment(rows, e), Find(rows, e.Key());
    assert forall j :: 0 <= j < |rows| ==> rows'[j].Key() == rows[j].Key();
    assert rows'[at].Key() == e.Key();
  }

  lemma IncrementCovers(rows: seq<Summary>, log: seq<Entry>, e: Entry, key: GroupKey)
    requires CoversGroup(rows, log, key)
    ensures CoversGroup(Increment(rows, e), log + [e], key)
  {
    GroupAppend(log, e, key);
    FindAfterIncrement(rows, e, key);
  }

  /** Counting one more entry keeps the table equal to the aggregate of the log. */
  lemma IncrementSummarises(rows: seq<Summary>, log: seq<Entry>, e: Entry)
    requires Summarises(rows, log)
    ensures Summarises(Increment(rows, e), log + [e])
  {
    IncrementKeepsKeysDistinct(rows, e);
    assert CoversGroup(rows, log, e.Key());
    forall i: nat | i < |Increment(rows, e)|
      ensures Aggregates(Increment(rows, e)[i], Group(log + [e], Increment(rows, e)[i].Key()))
    {
      IncrementAggregates(rows, log, e, i);
    }
    forall key
      ensures CoversGroup(Increment(rows, e), log + [e], key)
    {
      assert CoversGroup(rows, log, key);
      IncrementCovers(rows, log, e, key);
    }
  }

  /** The incremental table equals the reference aggregate of everything ever counted, for every log. */
  lemma {:induction false} RebuildSummarises(log: seq<Entry>)
    ensures Summarises(Rebuild(log), log)
  {
    if log != [] {
      var older := log[..|log| - 1];
      RebuildSummarises(older);
      IncrementSummarises(Rebuild(older), older, log[|log| - 1]);
      assert older + [log[|log| - 1]] == log;
    }
  }

  // ---------------------------------------------------------------------------------------------
  // What a group is, in columns

  /** NULL and -1, and NULL and the empty text, are one value to the unique index. */
  predicate SameInt(a: Option<int>, b: Option<int>) { a == b || (a in {None, Some(-1)} && b in {None, Some(-1)}) }

  predicate SameText(a: Option<string>, b: Option<string>) { a == b || (a in {None, Some("")} && b in {None, Some("")}) }

  /** The entry was completed on the UTC day of the row, by the same machine, table, model, customer, batch and operator. */
  predicate OfGroup(row: Summary, e: Entry) {
    && row.date * 86_400 <= e.completedAt < (row.date + 1) * 86_400
    && row.machineId == e.machineId && row.tableNo == e.tableNo && row.model == e.model
    && SameInt(row.customerId, e.customerId) && SameText(row.batchNumber, e.batchNumber)
    && SameInt(row.operatorId, e.operatorId)
  }

  lemma DateIsTheDay(e: Entry, day: int)
    ensures e.Date() == day <==> day * 86_400 <= e.completedAt < (day + 1) * 86_400
  {
  }

  lemma KeysAreColumns(row: Summary, e: Entry)
    ensures row.Key() == e.Key() <==> OfGroup(row, e)
  {
    DateIsTheDay(e, row.date);
  }

  /** Counting an entry adds one to the count of the row of its group and leaves the others, or adds a row with its columns
      and count one when there is no such row. */
  ghost predicate CountsInto(rows: seq<Summary>, rows': seq<Summary>, e: Entry) {
    if exists i :: 0 <= i < |rows| && OfGroup(rows[i], e) then
      && |rows'| == |rows|
      && exists i :: 0 <= i < |rows| && OfGroup(rows[i], e) && rows' == rows[i := rows'[i]]
                     && OfGroup(rows'[i], e) && rows'[i].productionCount == rows[i].productionCount + 1
    else
      && |rows'| == |rows| + 1 && rows' == rows + [rows'[|rows|]]
      && OfGroup(rows'[|rows|], e) && rows'[|rows|].productionCount == 1
      && rows'[|rows|].customerId == e.customerId && rows'[|rows|].batchNumber == e.batchNumber
      && rows'[|rows|].operatorId == e.operatorId
  }

  lemma IncrementCountsInto(rows: seq<Summary>, e: Entry)
    ensures CountsInto(rows, Increment(rows, e), e)
  {
    forall i | 0 <= i < |rows|
      ensures rows[i].Key() == e.Key() <==> OfGroup(rows[i], e)
    {
      KeysAreColumns(rows[i], e);
    }
    var at, rows' := Find(rows, e.Key()), Increment(rows, e);
    KeysAreColumns(rows'[at], e);
    if at < |rows| {
      assert OfGroup(rows[at], e) && rows' == rows[at := rows'[at]];
    }
  }

  /** The places in the log of the entries that belong to a row. */
  function Members(log: seq<Entry>, row: Summary): set<nat> { Positions(log, (e: Entry) => OfGroup(row, e)) }

  /** Every group of the table counts what was completed on its day with its columns: the table against the log, without
      keys. */
  ghost predicate CountsItsGroup(rows: seq<Summary>, log: seq<Entry>, i: nat)
    requires i < |rows|
  {
    rows[i].productionCount == |Members(log, rows[i])|
  }

  lemma {:induction false} GroupCount(log: seq<Entry>, row: Summary)
    ensures |Group(log, row.Key())| == |Members(log, row)|
  {
    if log == [] {
      assert Members(log, row) == {};
    } else {
      GroupCount(log[..|log| - 1], row);
      KeysAreColumns(row, log[|log| - 1]);
      PositionsGrow(log, (e: Entry) => OfGroup(row, e));
    }
  }

  lemma RebuildCountsGroups(log: seq<Entry>, i: nat)
    requires i < |Rebuild(log)|
    ensures CountsItsGroup(Rebuild(log), log, i)
  {
    RebuildSummarises(log);
    GroupCount(log, Rebuild(log)[i]);
  }

  lemma RebuildAppend(log: seq<Entry>, e: Entry)
    ensures Rebuild(log + [e]) == Increment(Rebuild(log), e)
  {
    assert (log + [e])[..|log|] == log;
  }
}
