/** Which dashboard totals can be trusted: every filter, over every run of the bridge. */
module Dashboard {
  import opened Wrappers
  import opened Clock
  import opened Selection
  import opened Strings
  import opened MessageParser
  import opened Responses
  import opened DailySummary
  import opened Totals
  import opened Store
  import opened System
  import opened Invariant
  import opened Preservation
  import opened Guarantees
  import opened Accounting
  import opened Reconciliation

  /** The table answers with the number of productions counted that the filter asks for, and with the times and days of the
      first and the last of them. */
  ghost predicate Exact(s: State, f: Filter) {
    PlainTally(QueryTotals(s.books.tables.summaries, f), Entries(s.books.log), f)
  }

  /** Both places that read a batch number turn an empty one into NULL. */
  lemma NoEmptyBatches(c: Config, s: State, actions: seq<Action>, k: nat)
    requires Init(s) && k < |Run(c, s, actions).books.log|
    ensures !UsesSentinelBatch(Run(c, s, actions).books.log[k].entry)
  {
    RunBalances(c, s, actions);
    assert Explained(c, s, Run(c, s, actions), Run(c, s, actions).books.log[k]);
  }

  /** Over every run, any filter is answered exactly that asks for no sentinel id, or for an empty batch number, or for an
      empty range of dates. */
  lemma {:induction false} DashboardIsExact(c: Config, s: State, actions: seq<Action>, f: Filter)
    requires Init(s) && Trusted(f)
    ensures Exact(Run(c, s, actions), f)
  {
    var b := Run(c, s, actions).books;
    InitEstablishes(c, s);
    RunKeeps(c, s, actions);
    forall k | 0 <= k < |Entries(b.log)|
      ensures !UsesSentinelBatch(Entries(b.log)[k])
    {
      NoEmptyBatches(c, s, actions, k);
    }
    TrustedFilterIsExact(Entries(b.log), f);
  }

  // ---------------------------------------------------------------------------------------------
  // A run that miscounts

  // Two completed rows of one product and day, the second with the ids that the filter asks for, the first without those
  // of them that are sentinels.

  function AskedDate(f: Filter): int {
    if f.dateFrom.Some? then f.dateFrom.value else if f.dateTo.Some? then f.dateTo.value else 0
  }

  function AskedParts(f: Filter, serial: string): Parts {
    Parts(if f.model.Some? then f.model.value else "M", serial, if f.tableNo.Some? then f.tableNo.value else "T01")
  }

  function Known(id: Option<int>): Option<int> { if id == Some(SUMMARY_INT_SENTINEL) then None else id }

  function IntJson(value: Option<int>): Json { if value.Some? then Int(value.value) else Null }

  function TextJson(value: Option<string>): Json { if value.Some? then Str(value.value) else Null }

  function JobResponse(customer: Option<int>, operator: Option<int>, batch: Option<string>): Json {
    Obj(map["success" := Bool(true),
            "result" := Obj(map["ACK" := Str("1"), "customer_id" := IntJson(customer), "operator_id" := IntJson(operator),
                                "batch_number" := TextJson(batch)])])
  }

  function JobRow(f: Filter, serial: string, customer: Option<int>, operator: Option<int>): Message {
    var parts := AskedParts(f, serial);
    Message("plc", Spaced(parts), Some(Obj(map["MN" := Str(Spaced(parts))])), "MN", parts.table, parts.model, serial,
            Store.Completed, 0, None, Some(At(AskedDate(f) * DAY_SECONDS)),
            Some(Dumped(JobResponse(customer, operator, f.batchNumber))), Some("1"), 0, None)
  }

  function SilentRow(f: Filter): Message { JobRow(f, "1", Known(f.customerId), Known(f.operatorId)) }

  function AskedRow(f: Filter): Message { JobRow(f, "2", f.customerId, f.operatorId) }

  /** Start-up with these two completed rows. */
  function TwoStored(a: Message, b: Message): State
    requires a.odooResponse.Some? && b.odooResponse.Some?
  {
    State(Books(Tables(map[0 := a, 1 := b], 2, map[], 0, [], map[], 0), []), Idle, Quiet,
          History(multiset{}, multiset{}, multiset{}, map[0 := a.odooResponse.value, 1 := b.odooResponse.value],
                  {}, multiset{}))
  }

  function TwoJobs(f: Filter): State { TwoStored(SilentRow(f), AskedRow(f)) }

  const TWO_AT_A_TIME := Config(1, 1, 1, "BEB", 2, 0, 0)

  lemma SerialsDiffer(head: string, tail: string)
    ensures head + "1" + tail != head + "2" + tail
  {
    assert (head + "1" + tail)[|head|] == '1';
    assert (head + "2" + tail)[|head|] == '2';
  }

  lemma TwoIdentities(f: Filter)
    ensures SilentRow(f).Identity() != AskedRow(f).Identity()
  {
    var parts := AskedParts(f, "1");
    var head := "plc" + (parts.model + " ");
    assert SilentRow(f).Identity() == head + "1" + parts.table;
    assert AskedRow(f).Identity() == head + "2" + parts.table;
    SerialsDiffer(head, parts.table);
  }

  lemma JobIsReplayable(f: Filter, serial: string, customer: Option<int>, operator: Option<int>)
    ensures Replayable(JobRow(f, serial, customer, operator))
  {
  }

  lemma TwoCompletedRowsInit(a: Message, b: Message)
    requires Replayable(a) && Replayable(b) && a.Identity() != b.Identity()
    ensures Init(TwoStored(a, b))
  {
  }

  lemma TwoJobsInit(f: Filter)
    ensures Init(TwoJobs(f))
  {
    TwoIdentities(f);
    JobIsReplayable(f, "1", Known(f.customerId), Known(f.operatorId));
    JobIsReplayable(f, "2", f.customerId, f.operatorId);
    TwoCompletedRowsInit(SilentRow(f), AskedRow(f));
  }

  lemma FirstTwo()
    ensures FirstIds({0, 1}, 2) == [0, 1]
  {
    assert AreFirst({0, 1}, 2, [0, 1]);
    FirstAreUnique({0, 1}, 2, [0, 1], FirstIds({0, 1}, 2));
  }

  predicate Recoverable(m: Message) {
    && m.status.Completed? && m.completedAt.Some? && m.completedAt.value.At? && m.odooResponse.Some? && m.ack.Some?
  }

  lemma FirstOfTwo(a: Message, b: Message)
    requires Recoverable(a) && Recoverable(b)
    ensures var books := ReconcileRow(TwoStored(a, b).books, 0, "BEB");
      && books.log == [Applied(0, StoredEntry(a, "BEB"))] && books.tables.messages == map[0 := a, 1 := b]
      && !SummaryApplied(books.tables, 1)
  {
  }

  lemma SecondOfTwo(a: Message, b: Message, books: Books)
    requires Recoverable(a) && Recoverable(b)
    requires books.log == [Applied(0, StoredEntry(a, "BEB"))] && books.tables.messages == map[0 := a, 1 := b]
    requires !SummaryApplied(books.tables, 1)
    ensures ReconcileRow(books, 1, "BEB").log == [Applied(0, StoredEntry(a, "BEB")), Applied(1, StoredEntry(b, "BEB"))]
  {
  }

  lemma TwoCounted(a: Message, b: Message)
    requires Recoverable(a) && Recoverable(b)
    ensures Reconcile(TwoStored(a, b).books, 2, "BEB").log
            == [Applied(0, StoredEntry(a, "BEB")), Applied(1, StoredEntry(b, "BEB"))]
  {
    var books := TwoStored(a, b).books;
    assert AwaitingIds(books.tables) == {0, 1};
    FirstTwo();
    assert [0, 1][..1] == [0] && [0][..0] == [];
    assert ReconcileRows(books, [], "BEB") == books;
    assert ReconcileRows(books, [0], "BEB") == ReconcileRow(books, 0, "BEB");
    FirstOfTwo(a, b);
    SecondOfTwo(a, b, ReconcileRow(books, 0, "BEB"));
  }

  /** What counting such a row says. */
  lemma JobEntry(f: Filter, serial: string, customer: Option<int>, operator: Option<int>)
    requires f.batchNumber != Some("")
    ensures var e, parts := StoredEntry(JobRow(f, serial, customer, operator), "BEB"), AskedParts(f, serial);
      && e.customerId == customer && e.operatorId == operator && e.batchNumber == f.batchNumber
      && e.machineId == "BEB" && e.tableNo == parts.table && e.model == parts.model && e.Date() == AskedDate(f)
  {
  }

  lemma TwoJobsConflated(f: Filter)
    requires !Trusted(f)
    ensures var silent, asked := StoredEntry(SilentRow(f), "BEB"), StoredEntry(AskedRow(f), "BEB");
      silent.Key() == asked.Key() && !Asked(f, silent) && Asked(f, asked)
  {
    JobEntry(f, "1", Known(f.customerId), Known(f.operatorId));
    JobEntry(f, "2", f.customerId, f.operatorId);
  }

  lemma SingleReconciliation(c: Config, s: State)
    ensures Run(c, s, [Reconciliation]).books == Reconcile(s.books, c.reconcileLimit, c.machineId)
  {
    assert [Reconciliation][..0] == [];
  }

  lemma LedgerOfRun(c: Config, s: State, actions: seq<Action>)
    requires Init(s)
    ensures Run(c, s, actions).books.tables.summaries == Rebuild(Entries(Run(c, s, actions).books.log))
  {
    InitEstablishes(c, s);
    RunKeeps(c, s, actions);
  }

  lemma TwoEntries(a: Applied, b: Applied)
    ensures Entries([a, b]) == [a.entry, b.entry]
  {
  }

  /** Reconciling the two rows is a run after which the table answers 0 and the log 1. */
  lemma {:induction false} UntrustedFilterMiscounts(f: Filter)
    requires !Trusted(f)
    ensures Init(TwoJobs(f)) && !Exact(Run(TWO_AT_A_TIME, TwoJobs(f), [Reconciliation]), f)
  {
    var silent, asked := StoredEntry(SilentRow(f), "BEB"), StoredEntry(AskedRow(f), "BEB");
    TwoJobsInit(f);
    LedgerOfRun(TWO_AT_A_TIME, TwoJobs(f), [Reconciliation]);
    SingleReconciliation(TWO_AT_A_TIME, TwoJobs(f));
    TwoCounted(SilentRow(f), AskedRow(f));
    TwoEntries(Applied(0, silent), Applied(1, asked));
    TwoJobsConflated(f);
    ConflationMiscounts(f, silent, asked);
  }

  /** Exactly which filters are answered exactly by every run. */
  lemma {:induction false} TrustedFilters(f: Filter)
    ensures (forall c, s, actions :: Init(s) ==> Exact(Run(c, s, actions), f)) <==> Trusted(f)
  {
    if Trusted(f) {
      forall c, s, actions | Init(s)
        ensures Exact(Run(c, s, actions), f)
      {
        DashboardIsExact(c, s, actions, f);
      }
    } else {
      UntrustedFilterMiscounts(f);
    }
  }

  // ---------------------------------------------------------------------------------------------
  // A queue that only the parser has filled

  ghost predicate GenuineQueue(s: State) { forall i :: i in s.Messages() ==> Genuine(s.Messages()[i]) }

  predicate ModelAccepted(model: string) { model != "" && Trim(model) }

  /** What the parser guarantees of the columns that a filter can ask for. */
  predicate Accepted(tableNo: string, model: string) { tableNo in SUPPORTED_TABLES && ModelAccepted(model) }

  ghost predicate AcceptedRows(s: State) {
    forall i :: i in s.Messages() ==> Accepted(s.Messages()[i].tableNo, s.Messages()[i].model)
  }

  ghost predicate AcceptedCounts(log: seq<Applied>) {
    forall k :: 0 <= k < |log| ==> Accepted(log[k].entry.tableNo, log[k].entry.model)
  }

  /** The filter asks for a table or a model that no accepted message has. */
  predicate Unmatchable(f: Filter) {
    (f.tableNo.Some? && f.tableNo.value !in SUPPORTED_TABLES) || (f.model.Some? && !ModelAccepted(f.model.value))
  }

  lemma GenuineColumns(m: Message)
    requires Genuine(m)
    ensures Accepted(m.tableNo, m.model)
  {
    var fields := m.payload.value.fields;
    AcceptedShape(if "MN" in fields then fields["MN"].text else fields["MP"].text);
  }

  lemma GenuineQueueIsAccepted(s: State)
    requires GenuineQueue(s)
    ensures AcceptedRows(s)
  {
    forall i | i in s.Messages()
      ensures Accepted(s.Messages()[i].tableNo, s.Messages()[i].model)
    {
      GenuineColumns(s.Messages()[i]);
    }
  }

  lemma NewCountIsAccepted(c: Config, s: State, s': State, k: nat)
    requires AcceptedRows(s) && Counts(c, s, s') && |s.books.log| <= k < |s'.books.log|
    ensures Accepted(s'.books.log[k].entry.tableNo, s'.books.log[k].entry.model)
  {
    if CountsStored(c, s, s') {
      assert Rebuilt(s.books.tables, s'.books.log[k], c.machineId);
    }
  }

  lemma CountsStayAccepted(c: Config, s: State, s': State)
    requires AcceptedRows(s) && AcceptedCounts(s.books.log) && Counts(c, s, s')
    ensures AcceptedCounts(s'.books.log)
  {
    forall k | 0 <= k < |s'.books.log|
      ensures Accepted(s'.books.log[k].entry.tableNo, s'.books.log[k].entry.model)
    {
      if k < |s.books.log| {
        assert s'.books.log[k] == s.books.log[k];
      } else {
        NewCountIsAccepted(c, s, s', k);
      }
    }
  }

  lemma RowsStayAccepted(c: Config, s: State, a: Action)
    requires Inv(c, s) && AcceptedRows(s)
    ensures AcceptedRows(Apply(c, s, a))
  {
    var s' := Apply(c, s, a);
    EveryStepFollowsTheDiagram(c, s, a);
    forall i | i in s'.Messages()
      ensures Accepted(s'.Messages()[i].tableNo, s'.Messages()[i].model)
    {
      if i in s.Messages() {
        assert Edge(c, s.Messages()[i], s'.Messages()[i]);
      } else {
        GenuineColumns(s'.Messages()[i]);
      }
    }
  }

  lemma {:induction false} RunStaysAccepted(c: Config, s: State, actions: seq<Action>)
    requires Init(s) && GenuineQueue(s)
    ensures AcceptedRows(Run(c, s, actions)) && AcceptedCounts(Run(c, s, actions).books.log)
    decreases |actions|
  {
    if actions == [] {
      GenuineQueueIsAccepted(s);
    } else {
      var before, last := actions[..|actions| - 1], actions[|actions| - 1];
      RunStaysAccepted(c, s, before);
      InitEstablishes(c, s);
      RunKeeps(c, s, before);
      StepCounts(c, Run(c, s, before), last);
      CountsStayAccepted(c, Run(c, s, before), Run(c, s, actions));
      RowsStayAccepted(c, Run(c, s, before), last);
    }
  }

  lemma {:induction false} UnmatchableIsExact(c: Config, s: State, actions: seq<Action>, f: Filter)
    requires Init(s) && GenuineQueue(s) && Unmatchable(f)
    ensures Exact(Run(c, s, actions), f)
  {
    var log := Run(c, s, actions).books.log;
    LedgerOfRun(c, s, actions);
    RunStaysAccepted(c, s, actions);
    forall k | 0 <= k < |Entries(log)|
      ensures !f.AcceptsEntry(Entries(log)[k])
    {
      assert Entries(log)[k] == log[k].entry;
    }
    NothingAccepted(Entries(log), f);
    NoRowTotals(Rebuild(Entries(log)), f);
    PlainTallyIsCounted(NOTHING, Entries(log), f);
  }

  lemma ParsedPayload(value: string, parts: Parts)
    requires SplitValue(value) == Parsed(parts)
    ensures ParsePlcMessage(Some(Obj(map["MN" := Str(value)]))) == Some(("MN", parts))
  {
    var fields := map["MN" := Str(value)];
    assert fields.Keys == {"MN"} && |fields| == |fields.Keys| == 1;
  }

  lemma AskedPartsAreClean(f: Filter, serial: string)
    requires !Unmatchable(f) && serial != "" && AllDigits(serial)
    ensures Clean(AskedParts(f, serial))
  {
  }

  lemma JobRowIsGenuine(f: Filter, serial: string, customer: Option<int>, operator: Option<int>)
    requires !Unmatchable(f) && serial != "" && AllDigits(serial)
    ensures Genuine(JobRow(f, serial, customer, operator))
  {
    var parts := AskedParts(f, serial);
    AskedPartsAreClean(f, serial);
    SpacedRoundTrip(parts);
    ParsedPayload(Spaced(parts), parts);
  }

  lemma TwoGenuineRows(a: Message, b: Message)
    requires a.odooResponse.Some? && b.odooResponse.Some? && Genuine(a) && Genuine(b)
    ensures GenuineQueue(TwoStored(a, b))
  {
  }

  lemma TwoJobsGenuine(f: Filter)
    requires !Unmatchable(f)
    ensures GenuineQueue(TwoJobs(f))
  {
    JobRowIsGenuine(f, "1", Known(f.customerId), Known(f.operatorId));
    JobRowIsGenuine(f, "2", f.customerId, f.operatorId);
    TwoGenuineRows(SilentRow(f), AskedRow(f));
  }

  lemma {:induction false} GenuineQueueIsExact(c: Config, s: State, actions: seq<Action>, f: Filter)
    requires Init(s) && GenuineQueue(s) && (Trusted(f) || Unmatchable(f))
    ensures Exact(Run(c, s, actions), f)
  {
    if Trusted(f) {
      DashboardIsExact(c, s, actions, f);
    } else {
      UnmatchableIsExact(c, s, actions, f);
    }
  }

  /** And exactly which are, when every row was received through the parser. */
  lemma {:induction false} TrustedFiltersOfGenuineQueues(f: Filter)
    ensures (forall c, s, actions :: Init(s) && GenuineQueue(s) ==> Exact(Run(c, s, actions), f))
            <==> Trusted(f) || Unmatchable(f)
  {
    if Trusted(f) || Unmatchable(f) {
      forall c, s, actions | Init(s) && GenuineQueue(s)
        ensures Exact(Run(c, s, actions), f)
      {
        GenuineQueueIsExact(c, s, actions, f);
      }
    } else {
      UntrustedFilterMiscounts(f);
      TwoJobsGenuine(f);
    }
  }
}
