/** Repeated reconciliation: which rows it reaches, how fast, and that it counts what direct completion would have. */
module Reconciliation {
  import opened Wrappers
  import opened Selection
  import opened Counting
  import opened Responses
  import opened DailySummary
  import opened Totals
  import opened Store
  import opened Invariant
  import opened Preservation

  ghost function ReconciledTimes(b: Books, limit: nat, machineId: string, calls: nat): Books
    decreases calls
  {
    if calls == 0 then b else ReconciledTimes(Reconcile(b, limit, machineId), limit, machineId, calls - 1)
  }

  predicate Readable(t: Tables, id: nat)
    requires id in t.messages
  {
    t.messages[id].completedAt.Some? && t.messages[id].completedAt.value.At?
  }

  /** Awaiting rows that reconciliation can settle, and those it can only skip. */
  function ReadableIds(t: Tables): set<nat> { set i | i in AwaitingIds(t) && Readable(t, i) }

  function UnreadableIds(t: Tables): set<nat> { set i | i in AwaitingIds(t) && !Readable(t, i) }

  function Below(ids: set<nat>, r: nat): set<nat> { set i | i in ids && i < r }

  // ---------------------------------------------------------------------------------------------
  // One call

  /** What the rows already visited by a call amount to. */
  ghost predicate Visited(b: Books, b': Books, ids: seq<nat>, machineId: string) {
    && b'.tables.messages == b.tables.messages && b'.tables.nextMessage == b.tables.nextMessage
    && (forall i: nat :: SummaryApplied(b'.tables, i)
                         <==> SummaryApplied(b.tables, i) || (i in ids && i in b.tables.messages && Readable(b.tables, i)))
    && b.log <= b'.log
    && (forall k :: |b.log| <= k < |b'.log| ==> Rebuilt(b.tables, b'.log[k], machineId))
  }

  /** A count that was rebuilt from the stored row alone. */
  ghost predicate Rebuilt(t: Tables, a: Applied, machineId: string) {
    && a.messageId in t.messages && AwaitsSummary(t, a.messageId) && Readable(t, a.messageId)
    && a.entry == StoredEntry(t.messages[a.messageId], machineId)
  }

  lemma VisitOne(b: Books, b': Books, ids: seq<nat>, id: nat, machineId: string)
    requires Visited(b, b', ids, machineId) && AwaitsSummary(b.tables, id) && id !in ids
    ensures Visited(b, ReconcileRow(b', id, machineId), ids + [id], machineId)
  {
    var b'' := ReconcileRow(b', id, machineId);
    assert AwaitsSummary(b'.tables, id);
    if Readable(b.tables, id) {
      SettleApplies(b', id, StoredEntry(b.tables.messages[id], machineId));
      assert b''.log == b'.log + [Applied(id, StoredEntry(b.tables.messages[id], machineId))];
    }
  }

  lemma SettleApplies(b: Books, id: nat, e: Entry)
    ensures forall i: nat :: SummaryApplied(Settle(b, id, e).tables, i) <==> SummaryApplied(b.tables, i) || i == id
    ensures Settle(b, id, e).tables.messages == b.tables.messages
    ensures Settle(b, id, e).tables.nextMessage == b.tables.nextMessage
  {
  }

  lemma {:induction false} VisitAll(b: Books, ids: seq<nat>, machineId: string)
    requires Ascending(ids) && forall i :: i in ids ==> AwaitsSummary(b.tables, i)
    ensures Visited(b, ReconcileRows(b, ids, machineId), ids, machineId)
  {
    if ids != [] {
      var n := |ids| - 1;
      assert ids == ids[..n] + [ids[n]];
      VisitAll(b, ids[..n], machineId);
      VisitOne(b, ReconcileRows(b, ids[..n], machineId), ids[..n], ids[n], machineId);
    }
  }

  /** The rows that one call selects. */
  ghost function Selected(t: Tables, limit: nat): seq<nat> { FirstIds(AwaitingIds(t), limit) }

  lemma CallVisits(b: Books, limit: nat, machineId: string)
    requires limit > 0
    ensures Visited(b, Reconcile(b, limit, machineId), Selected(b.tables, limit), machineId)
  {
    var ids := Selected(b.tables, limit);
    assert forall i :: i in ids ==> i in AwaitingIds(b.tables);
    VisitAll(b, ids, machineId);
  }

  /** One call settles the readable rows it selects and skips the others. */
  lemma CallRemoves(b: Books, limit: nat, machineId: string)
    requires limit > 0
    ensures ReadableIds(Reconcile(b, limit, machineId).tables)
            == ReadableIds(b.tables) - Elements(Selected(b.tables, limit))
    ensures UnreadableIds(Reconcile(b, limit, machineId).tables) == UnreadableIds(b.tables)
  {
    CallVisits(b, limit, machineId);
  }

  // ---------------------------------------------------------------------------------------------
  // Reach

  /** Skipped rows are selected again by every call, so enough of them with smaller ids hide r forever. */
  lemma HiddenIsNotSelected(t: Tables, limit: nat, r: nat)
    requires r in ReadableIds(t) && |Below(UnreadableIds(t), r)| >= limit
    ensures r !in Selected(t, limit)
  {
    var ids := Selected(t, limit);
    if r in ids {
      assert Below(UnreadableIds(t), r) + {r} <= Elements(ids) by {
        forall i | i in Below(UnreadableIds(t), r)
          ensures i in ids
        {
          assert i in AwaitingIds(t);
        }
      }
      AscendingCardinality(ids);
      SubsetCardinality(Below(UnreadableIds(t), r) + {r}, Elements(ids));
    }
  }

  lemma {:induction false} HiddenForever(b: Books, limit: nat, machineId: string, calls: nat, r: nat)
    requires limit > 0 && r in ReadableIds(b.tables) && |Below(UnreadableIds(b.tables), r)| >= limit
    ensures r in ReadableIds(ReconciledTimes(b, limit, machineId, calls).tables)
    decreases calls
  {
    if calls > 0 {
      CallRemoves(b, limit, machineId);
      HiddenIsNotSelected(b.tables, limit, r);
      HiddenForever(Reconcile(b, limit, machineId), limit, machineId, calls - 1, r);
    }
  }

  /** With fewer skipped rows than the limit below r, a call that misses r settles a readable row below it. */
  lemma MissedCallProgresses(t: Tables, limit: nat, r: nat)
    requires r in ReadableIds(t) && |Below(UnreadableIds(t), r)| < limit
    requires r !in Selected(t, limit)
    ensures exists i :: i in Selected(t, limit) && i in Below(ReadableIds(t), r)
  {
    var ids := Selected(t, limit);
    assert r in AwaitingIds(t);
    AscendingCardinality(ids);
    if forall i :: i in ids ==> i !in Below(ReadableIds(t), r) {
      assert forall i :: i in ids ==> i in AwaitingIds(t) && i < r;
      assert Elements(ids) <= Below(UnreadableIds(t), r);
      SubsetCardinality(Elements(ids), Below(UnreadableIds(t), r));
    }
  }

  lemma MissedCallLowers(b: Books, limit: nat, machineId: string, r: nat)
    requires limit > 0 && r in ReadableIds(b.tables) && |Below(UnreadableIds(b.tables), r)| < limit
    requires r !in Selected(b.tables, limit)
    ensures var t' := Reconcile(b, limit, machineId).tables;
      && r in ReadableIds(t') && UnreadableIds(t') == UnreadableIds(b.tables)
      && |Below(ReadableIds(t'), r)| < |Below(ReadableIds(b.tables), r)|
  {
    CallRemoves(b, limit, machineId);
    MissedCallProgresses(b.tables, limit, r);
    var i :| i in Selected(b.tables, limit) && i in Below(ReadableIds(b.tables), r);
    var before, after := Below(ReadableIds(b.tables), r), Below(ReadableIds(Reconcile(b, limit, machineId).tables), r);
    assert after <= before - {i};
    SubsetCardinality(after, before - {i});
  }

  lemma {:induction false} ReachedInTime(b: Books, limit: nat, machineId: string, calls: nat, r: nat)
    requires limit > 0 && r in ReadableIds(b.tables) && |Below(UnreadableIds(b.tables), r)| < limit
    requires calls > |Below(ReadableIds(b.tables), r)|
    ensures r !in ReadableIds(ReconciledTimes(b, limit, machineId, calls).tables)
    decreases calls
  {
    if r in Selected(b.tables, limit) {
      CallRemoves(b, limit, machineId);
      StaysSettled(Reconcile(b, limit, machineId), limit, machineId, calls - 1, r);
    } else {
      MissedCallLowers(b, limit, machineId, r);
      ReachedInTime(Reconcile(b, limit, machineId), limit, machineId, calls - 1, r);
    }
  }

  lemma {:induction false} StaysSettled(b: Books, limit: nat, machineId: string, calls: nat, r: nat)
    requires limit > 0 && r !in ReadableIds(b.tables)
    ensures r !in ReadableIds(ReconciledTimes(b, limit, machineId, calls).tables)
    decreases calls
  {
    if calls > 0 {
      CallRemoves(b, limit, machineId);
      StaysSettled(Reconcile(b, limit, machineId), limit, machineId, calls - 1, r);
    }
  }

  /** Exactly which rows bounded reconciliation ever counts: those with a readable completion time and fewer than
      limit unreadable awaiting rows before them. Startup repair can be blocked for good by old unreadable rows. */
  lemma ReachedExactlyWhenNotHidden(b: Books, limit: nat, machineId: string, r: nat)
    requires limit > 0 && r in ReadableIds(b.tables)
    ensures (exists calls: nat :: r !in ReadableIds(ReconciledTimes(b, limit, machineId, calls).tables))
            <==> |Below(UnreadableIds(b.tables), r)| < limit
  {
    if |Below(UnreadableIds(b.tables), r)| < limit {
      ReachedInTime(b, limit, machineId, |Below(ReadableIds(b.tables), r)| + 1, r);
    } else {
      forall calls: nat
        ensures r in ReadableIds(ReconciledTimes(b, limit, machineId, calls).tables)
      {
        HiddenForever(b, limit, machineId, calls, r);
      }
    }
  }

  // ---------------------------------------------------------------------------------------------
  // Draining, and what is counted then

  lemma CallTakesItsLimit(b: Books, limit: nat, machineId: string)
    requires limit > 0 && UnreadableIds(b.tables) == {}
    ensures |AwaitingIds(Reconcile(b, limit, machineId).tables)| == Truncated(|AwaitingIds(b.tables)| - limit)
    ensures UnreadableIds(Reconcile(b, limit, machineId).tables) == {}
  {
    var t, t', ids := b.tables, Reconcile(b, limit, machineId).tables, Selected(b.tables, limit);
    CallRemoves(b, limit, machineId);
    assert AwaitingIds(t) == ReadableIds(t) + UnreadableIds(t);
    assert AwaitingIds(t') == ReadableIds(t') + UnreadableIds(t');
    AscendingCardinality(ids);
    assert Elements(ids) <= AwaitingIds(t);
    assert |AwaitingIds(t) - Elements(ids)| == |AwaitingIds(t)| - |Elements(ids)|;
  }

  /** With readable times, n awaiting rows are drained in exactly ceil(n / limit) calls. */
  lemma {:induction false} ReconciliationDrains(b: Books, limit: nat, machineId: string, calls: nat)
    requires limit > 0 && UnreadableIds(b.tables) == {}
    ensures |AwaitingIds(ReconciledTimes(b, limit, machineId, calls).tables)|
            == Truncated(|AwaitingIds(b.tables)| - calls * limit)
    decreases calls
  {
    if calls > 0 {
      CallTakesItsLimit(b, limit, machineId);
      ReconciliationDrains(Reconcile(b, limit, machineId), limit, machineId, calls - 1);
      OneMoreCall(|AwaitingIds(b.tables)|, calls - 1, limit);
    }
  }

  /** Once nothing awaits a summary, reconciliation changes nothing. */
  lemma DrainedIsNoOp(b: Books, limit: int, machineId: string)
    requires AwaitingIds(b.tables) == {}
    ensures Reconcile(b, limit, machineId) == b
  {
  }

  /** b' is b with exactly the awaiting rows in settled counted, each from its stored row. */
  ghost predicate CaughtUp(b: Books, b': Books, machineId: string) {
    && LedgerSound(b') && b'.tables.messages == b.tables.messages
    && b.log <= b'.log
    && (forall k :: |b.log| <= k < |b'.log| ==> Rebuilt(b.tables, b'.log[k], machineId))
    && (forall i: nat :: SummaryApplied(b'.tables, i) ==> SummaryApplied(b.tables, i) || AwaitsSummary(b.tables, i))
    && (forall i: nat :: SummaryApplied(b.tables, i) ==> SummaryApplied(b'.tables, i))
  }

  lemma CallCatchesUp(b: Books, b': Books, limit: nat, machineId: string)
    requires limit > 0 && RowsDistinct(b'.tables) && CaughtUp(b, b', machineId)
    ensures CaughtUp(b, Reconcile(b', limit, machineId), machineId)
    ensures RowsDistinct(Reconcile(b', limit, machineId).tables)
  {
    var b'' := Reconcile(b', limit, machineId);
    CallVisits(b', limit, machineId);
    assert forall i :: i in Selected(b'.tables, limit) ==> i in AwaitingIds(b'.tables);
    ReconcileRowsKeepLedger(b', Selected(b'.tables, limit), machineId);
    forall k | |b.log| <= k < |b''.log|
      ensures Rebuilt(b.tables, b''.log[k], machineId)
    {
      if k < |b'.log| {
        assert b''.log[k] == b'.log[k];
      } else {
        assert Rebuilt(b'.tables, b''.log[k], machineId);
      }
    }
  }

  lemma {:induction false} TimesCatchUp(b: Books, b': Books, limit: nat, machineId: string, calls: nat)
    requires limit > 0 && RowsDistinct(b'.tables) && CaughtUp(b, b', machineId)
    ensures CaughtUp(b, ReconciledTimes(b', limit, machineId, calls), machineId)
    decreases calls
  {
    if calls > 0 {
      CallCatchesUp(b, b', limit, machineId);
      TimesCatchUp(b, Reconcile(b', limit, machineId), limit, machineId, calls - 1);
    }
  }

  /** What drained books have counted beyond b: every row that awaited a summary, once, from its stored row. */
  lemma DrainedLog(b: Books, b': Books, machineId: string)
    requires LedgerSound(b) && CaughtUp(b, b', machineId) && AwaitingIds(b'.tables) == {}
    ensures forall a: Applied :: a in b'.log[|b.log|..]
              <==> a.messageId in AwaitingIds(b.tables) && Rebuilt(b.tables, a, machineId)
  {
    var added := b'.log[|b.log|..];
    forall a: Applied | a.messageId in AwaitingIds(b.tables) && Rebuilt(b.tables, a, machineId)
      ensures a in added
    {
      assert a.messageId !in AwaitingIds(b'.tables);
      assert SummaryApplied(b'.tables, a.messageId) && Counted(b'.log, a.messageId);
      var k :| 0 <= k < |b'.log| && b'.log[k].messageId == a.messageId;
      NotCountedYet(b, a.messageId);
      assert forall j :: 0 <= j < |b.log| ==> b'.log[j] == b.log[j];
      assert k >= |b.log|;
      assert added[k - |b.log|] == b'.log[k] && Rebuilt(b.tables, b'.log[k], machineId);
    }
  }

  lemma NotCountedYet(b: Books, id: nat)
    requires LedgerSound(b) && AwaitsSummary(b.tables, id)
    ensures forall j :: 0 <= j < |b.log| ==> b.log[j].messageId != id
  {
    assert !Counted(b.log, id);
  }

  // ---------------------------------------------------------------------------------------------
  // Confluence

  lemma EntriesDropping(log: seq<Applied>, i: nat)
    requires i < |log|
    ensures multiset(Entries(log)) == multiset(Entries(Dropping(log, i))) + multiset{log[i].entry}
  {
    MultisetDropping(Entries(log), i);
    assert Entries(Dropping(log, i)) == Dropping(Entries(log), i);
  }

  lemma {:induction false} EntriesOfPermutation(a: seq<Applied>, b: seq<Applied>)
    requires multiset(a) == multiset(b)
    ensures multiset(Entries(a)) == multiset(Entries(b))
    decreases |a|
  {
    if a == [] {
      assert |b| == |multiset(b)| == 0;
    } else {
      var i := FirstInPermutation(a, b);
      EntriesOfPermutation(a[1..], Dropping(b, i));
      EntriesDropping(a, 0);
      EntriesDropping(b, i);
      assert Dropping(a, 0) == a[1..];
    }
  }

  lemma {:induction false} OnceEach(log: seq<Applied>, a: Applied)
    requires CountedOnce(log)
    ensures multiset(log)[a] == if a in log then 1 else 0
  {
    if log != [] {
      var n := |log| - 1;
      assert log == log[..n] + [log[n]];
      OnceEach(log[..n], a);
    }
  }

  lemma SameRecordsSameLog(x: seq<Applied>, y: seq<Applied>)
    requires CountedOnce(x) && CountedOnce(y) && forall a: Applied :: a in x <==> a in y
    ensures multiset(x) == multiset(y)
  {
    forall a: Applied
      ensures multiset(x)[a] == multiset(y)[a]
    {
      OnceEach(x, a);
      OnceEach(y, a);
    }
  }

  /** Two ways of catching up on the same rows show the same group totals once nothing is left. */
  lemma DrainedTotalsAgree(b: Books, b1: Books, b2: Books, machineId: string, key: GroupKey)
    requires LedgerSound(b) && CaughtUp(b, b1, machineId) && CaughtUp(b, b2, machineId)
    requires AwaitingIds(b1.tables) == {} && AwaitingIds(b2.tables) == {}
    ensures GroupTotals(b1.tables.summaries, key) == GroupTotals(b2.tables.summaries, key)
  {
    DrainedLog(b, b1, machineId);
    DrainedLog(b, b2, machineId);
    DrainedLogsAgree(b, b1, b2);
    EntriesOfPermutation(b1.log, b2.log);
    OrderOfCountingIsIrrelevant(Entries(b1.log), Entries(b2.log), key);
  }

  /** However reconciliation is batched, once it has drained every group shows the same count and the same first
      and last completion time. */
  lemma {:induction false} ReconciliationIsConfluent(
      b: Books, machineId: string, limit1: nat, calls1: nat, limit2: nat, calls2: nat, key: GroupKey)
    requires LedgerSound(b) && RowsDistinct(b.tables) && limit1 > 0 && limit2 > 0
    requires AwaitingIds(ReconciledTimes(b, limit1, machineId, calls1).tables) == {}
    requires AwaitingIds(ReconciledTimes(b, limit2, machineId, calls2).tables) == {}
    ensures var b1, b2 := ReconciledTimes(b, limit1, machineId, calls1), ReconciledTimes(b, limit2, machineId, calls2);
            GroupTotals(b1.tables.summaries, key) == GroupTotals(b2.tables.summaries, key)
  {
    TimesCatchUp(b, b, limit1, machineId, calls1);
    TimesCatchUp(b, b, limit2, machineId, calls2);
    DrainedTotalsAgree(b, ReconciledTimes(b, limit1, machineId, calls1), ReconciledTimes(b, limit2, machineId, calls2),
                       machineId, key);
  }

  lemma DrainedLogsAgree(b: Books, b1: Books, b2: Books)
    requires b.log <= b1.log && b.log <= b2.log && CountedOnce(b1.log) && CountedOnce(b2.log)
    requires forall a: Applied :: a in b1.log[|b.log|..] <==> a in b2.log[|b.log|..]
    ensures multiset(b1.log) == multiset(b2.log)
  {
    assert b1.log == b.log + b1.log[|b.log|..] && b2.log == b.log + b2.log[|b.log|..];
    SameRecordsSameLog(b1.log, b2.log);
  }

  /** What mark_completed counts at once and what reconciliation would rebuild later from the stored row are the
      same entry exactly when a machine id is configured: only mark_completed replaces an empty one by its default. */
  lemma DirectAndRebuiltAgree(b: Books, id: nat, response: Json, at: int, ack: string, machineId: string)
    requires id in b.tables.messages && ack != "" && !SummaryApplied(b.tables, id)
    ensures var direct := MarkCompleted(b, id, Dumped(response), at, Some(ack), DashboardMetadata(response), machineId);
      && |direct.log| == |b.log| + 1 && direct.log[|b.log|].messageId == id
      && (direct.log[|b.log|].entry == StoredEntry(direct.tables.messages[id], machineId) <==> machineId != "")
  {
    MetadataSurvivesStorage(response);
  }

  function IntAt(fields: map<string, Json>, key: string): Option<int> {
    if key in fields && fields[key].Int? then Some(fields[key].n) else None
  }

  function TextAt(fields: map<string, Json>, key: string): Option<string> {
    if key in fields && fields[key].Str? && fields[key].text != "" then Some(fields[key].text) else None
  }

  /** Completing a message counts what the queue row says about the product and what the result object of the response
      says about the job. */
  lemma CompletionCountsTheResponse(b: Books, id: nat, response: Json, at: int, ack: string, machineId: string)
    requires id in b.tables.messages && ack != "" && !SummaryApplied(b.tables, id)
    requires response.Obj? && response.Get("result").Obj?
    ensures var direct := MarkCompleted(b, id, Dumped(response), at, Some(ack), DashboardMetadata(response), machineId);
      var m, result := b.tables.messages[id], response.Get("result").fields;
      && |direct.log| == |b.log| + 1 && direct.log[..|b.log|] == b.log
      && var e := direct.log[|b.log|].entry;
      && e.completedAt == at && e.ack == ack && e.tableNo == m.tableNo && e.model == m.model
      && e.customerId == IntAt(result, "customer_id") && e.operatorId == IntAt(result, "operator_id")
      && e.batchNumber == TextAt(result, "batch_number")
      && e.labels == Labels(TextAt(result, "customer_name"), TextAt(result, "operator_name"),
                            IntAt(result, "number_of_operators"))
  {
  }
}
