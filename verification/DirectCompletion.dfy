/** Completing messages directly and reconciling them afterwards come to the same production counts. */
module DirectCompletion {
  import opened Wrappers
  import opened Responses
  import opened DailySummary
  import opened Totals
  import opened Store
  import opened Invariant
  import opened Preservation
  import opened Reconciliation

  /** A success to be committed for message id. */
  datatype Commit = Commit(id: nat, response: Json, at: int, ack: string)

  function CommittedRow(m: Message, x: Commit): Message { CompletedRow(m, Dumped(x.response), x.at, Some(x.ack)) }

  ghost predicate OneEach(xs: seq<Commit>) { forall j, k :: 0 <= j < k < |xs| ==> xs[j].id != xs[k].id }

  /** Distinct open rows with successful responses. */
  ghost predicate Committable(b: Books, xs: seq<Commit>) {
    && OneEach(xs)
    && forall k :: 0 <= k < |xs| ==>
         && xs[k].id in b.tables.messages && !b.tables.messages[xs[k].id].status.Completed?
         && Judge(xs[k].response) == Success(xs[k].ack)
  }

  /** mark_completed for each, in this order. */
  function CompleteAll(b: Books, xs: seq<Commit>, machineId: string): (r: Books)
    requires forall k :: 0 <= k < |xs| ==> xs[k].id in b.tables.messages
    ensures r.tables.messages.Keys == b.tables.messages.Keys
  {
    if xs == [] then b
    else
      var x := xs[|xs| - 1];
      MarkCompleted(CompleteAll(b, xs[..|xs| - 1], machineId), x.id, Dumped(x.response), x.at, Some(x.ack),
                    DashboardMetadata(x.response), machineId)
  }

  /** The rows as mark_completed leaves them, without anything counted. */
  function StoreAll(b: Books, xs: seq<Commit>): (r: Books)
    requires forall k :: 0 <= k < |xs| ==> xs[k].id in b.tables.messages
    ensures r.tables.messages.Keys == b.tables.messages.Keys
  {
    if xs == [] then b
    else
      StoreOne(StoreAll(b, xs[..|xs| - 1]), xs[|xs| - 1])
  }

  ghost predicate Names(xs: seq<Commit>, i: nat) { exists k :: 0 <= k < |xs| && xs[k].id == i }

  lemma NamesLast(xs: seq<Commit>, i: nat)
    requires xs != []
    ensures Names(xs, i) <==> Names(xs[..|xs| - 1], i) || xs[|xs| - 1].id == i
  {
    var n := |xs| - 1;
    if Names(xs, i) {
      var k :| 0 <= k < |xs| && xs[k].id == i;
      assert k < n ==> xs[..n][k].id == i;
    }
    if Names(xs[..n], i) {
      var k :| 0 <= k < n && xs[..n][k].id == i;
      assert xs[k].id == i;
    }
  }

  /** What storing does, row by row. */
  ghost predicate StoresRows(rows: map<nat, Message>, rows': map<nat, Message>, xs: seq<Commit>)
    requires forall k :: 0 <= k < |xs| ==> xs[k].id in rows
  {
    && rows'.Keys == rows.Keys
    && (forall k :: 0 <= k < |xs| ==> rows'[xs[k].id] == CommittedRow(rows[xs[k].id], xs[k]))
    && (forall i :: i in rows && !Names(xs, i) ==> rows'[i] == rows[i])
  }

  ghost predicate Stores(b: Books, r: Books, xs: seq<Commit>)
    requires forall k :: 0 <= k < |xs| ==> xs[k].id in b.tables.messages
  {
    && r == b.(tables := b.tables.(messages := r.tables.messages))
    && StoresRows(b.tables.messages, r.tables.messages, xs)
  }

  function StoreOne(r: Books, x: Commit): Books
    requires x.id in r.tables.messages
  {
    r.(tables := r.tables.(messages := r.tables.messages[x.id := CommittedRow(r.tables.messages[x.id], x)]))
  }

  lemma OneMoreStored(rows: map<nat, Message>, rows': map<nat, Message>, xs: seq<Commit>, k: nat)
    requires OneEach(xs) && forall j :: 0 <= j < |xs| ==> xs[j].id in rows
    requires k < |xs| && StoresRows(rows, rows', xs[..|xs| - 1])
    ensures var x := xs[|xs| - 1];
      rows'[x.id := CommittedRow(rows'[x.id], x)][xs[k].id] == CommittedRow(rows[xs[k].id], xs[k])
  {
    var n := |xs| - 1;
    assert k < n ==> xs[..n][k] == xs[k];
    assert k == n ==> !Names(xs[..n], xs[n].id);
  }

  lemma OneMoreStores(rows: map<nat, Message>, rows': map<nat, Message>, xs: seq<Commit>)
    requires OneEach(xs) && forall j :: 0 <= j < |xs| ==> xs[j].id in rows
    requires xs != [] && StoresRows(rows, rows', xs[..|xs| - 1])
    ensures var x := xs[|xs| - 1];
      StoresRows(rows, rows'[x.id := CommittedRow(rows'[x.id], x)], xs)
  {
    forall i | i in rows && !Names(xs, i)
      ensures !Names(xs[..|xs| - 1], i) && i != xs[|xs| - 1].id
    {
      NamesLast(xs, i);
    }
    forall k | 0 <= k < |xs|
      ensures var x := xs[|xs| - 1];
        rows'[x.id := CommittedRow(rows'[x.id], x)][xs[k].id] == CommittedRow(rows[xs[k].id], xs[k])
    {
      OneMoreStored(rows, rows', xs, k);
    }
  }

  lemma {:induction false} StoredRows(b: Books, xs: seq<Commit>)
    requires Committable(b, xs)
    ensures Stores(b, StoreAll(b, xs), xs)
  {
    if xs != [] {
      StoredRows(b, xs[..|xs| - 1]);
      OneMoreStores(b.tables.messages, StoreAll(b, xs[..|xs| - 1]).tables.messages, xs);
    }
  }

  lemma PermutationNames(xs: seq<Commit>, ys: seq<Commit>, i: nat)
    requires multiset(xs) == multiset(ys) && Names(xs, i)
    ensures Names(ys, i)
  {
    var k :| 0 <= k < |xs| && xs[k].id == i;
    assert xs[k] in multiset(ys);
  }

  lemma StoredRowsAgree(rows: map<nat, Message>, r1: map<nat, Message>, r2: map<nat, Message>,
                        xs: seq<Commit>, ys: seq<Commit>, i: nat)
    requires forall k :: 0 <= k < |xs| ==> xs[k].id in rows
    requires forall k :: 0 <= k < |ys| ==> ys[k].id in rows
    requires StoresRows(rows, r1, xs) && StoresRows(rows, r2, ys) && multiset(xs) == multiset(ys) && i in rows
    ensures r1[i] == r2[i]
  {
    if Names(xs, i) {
      var k :| 0 <= k < |xs| && xs[k].id == i;
      assert xs[k] in multiset(ys);
    } else if Names(ys, i) {
      PermutationNames(ys, xs, i);
    }
  }

  lemma StoringIgnoresOrder(b: Books, xs: seq<Commit>, ys: seq<Commit>)
    requires Committable(b, xs) && Committable(b, ys) && multiset(xs) == multiset(ys)
    ensures StoreAll(b, xs) == StoreAll(b, ys)
  {
    StoredRows(b, xs);
    StoredRows(b, ys);
    var r1, r2 := StoreAll(b, xs).tables.messages, StoreAll(b, ys).tables.messages;
    forall i | i in b.tables.messages
      ensures r1[i] == r2[i]
    {
      StoredRowsAgree(b.tables.messages, r1, r2, xs, ys, i);
    }
    assert r1 == r2;
  }

  /** The counts that completing makes, each rebuilt from its stored row. */
  function CountsOf(b: Books, xs: seq<Commit>, machineId: string): seq<Applied>
    requires forall k :: 0 <= k < |xs| ==> xs[k].id in b.tables.messages
  {
    if xs == [] then []
    else
      var x := xs[|xs| - 1];
      CountsOf(b, xs[..|xs| - 1], machineId) + [CountOf(b.tables.messages[x.id], x, machineId)]
  }

  function CountOf(m: Message, x: Commit, machineId: string): Applied {
    Applied(x.id, StoredEntry(CommittedRow(m, x), machineId))
  }

  /** r' is r with message x.id completed and counted. */
  ghost predicate CompletesOne(r: Books, r': Books, x: Commit, machineId: string)
    requires x.id in r.tables.messages
  {
    && LedgerSound(r') && RowsDistinct(r'.tables)
    && r'.tables.messages == r.tables.messages[x.id := CommittedRow(r.tables.messages[x.id], x)]
    && r'.log == r.log + [CountOf(r.tables.messages[x.id], x, machineId)]
    && (forall i: nat :: SummaryApplied(r'.tables, i) <==> SummaryApplied(r.tables, i) || i == x.id)
  }

  lemma CompletedOneKeepsLedger(r: Books, x: Commit, machineId: string)
    requires LedgerSound(r) && RowsDistinct(r.tables)
    requires x.id in r.tables.messages && !r.tables.messages[x.id].status.Completed?
    ensures var r' := MarkCompleted(r, x.id, Dumped(x.response), x.at, Some(x.ack), DashboardMetadata(x.response), machineId);
      LedgerSound(r') && RowsDistinct(r'.tables) && !SummaryApplied(r.tables, x.id)
  {
    CompletionKeepsLedger(r, x.id, Dumped(x.response), x.at, Some(x.ack), DashboardMetadata(x.response), machineId);
    CompletingOpenRowKeepsLedger(r, x.id, CommittedRow(r.tables.messages[x.id], x));
  }

  lemma CompleteOne(r: Books, x: Commit, machineId: string)
    requires LedgerSound(r) && RowsDistinct(r.tables) && machineId != ""
    requires x.id in r.tables.messages && !r.tables.messages[x.id].status.Completed?
    requires Judge(x.response) == Success(x.ack)
    ensures var r' := MarkCompleted(r, x.id, Dumped(x.response), x.at, Some(x.ack), DashboardMetadata(x.response), machineId);
      CompletesOne(r, r', x, machineId)
  {
    CompletedOneKeepsLedger(r, x, machineId);
    MetadataSurvivesStorage(x.response);
  }

  /** Completing one by one stores the same rows as storing, and counts each of them once. */
  ghost predicate CompletesAll(b: Books, r: Books, xs: seq<Commit>, machineId: string)
    requires forall k :: 0 <= k < |xs| ==> xs[k].id in b.tables.messages
  {
    && LedgerSound(r) && RowsDistinct(r.tables)
    && r.tables.messages == StoreAll(b, xs).tables.messages
    && r.log == b.log + CountsOf(b, xs, machineId)
    && forall i: nat :: SummaryApplied(r.tables, i) <==> SummaryApplied(b.tables, i) || Names(xs, i)
  }

  lemma OneMoreIsSummarised(b: Books, r: Books, r': Books, xs: seq<Commit>)
    requires xs != []
    requires forall i: nat :: SummaryApplied(r.tables, i) <==> SummaryApplied(b.tables, i) || Names(xs[..|xs| - 1], i)
    requires forall i: nat :: SummaryApplied(r'.tables, i) <==> SummaryApplied(r.tables, i) || i == xs[|xs| - 1].id
    ensures forall i: nat :: SummaryApplied(r'.tables, i) <==> SummaryApplied(b.tables, i) || Names(xs, i)
  {
    forall i: nat
      ensures SummaryApplied(r'.tables, i) <==> SummaryApplied(b.tables, i) || Names(xs, i)
    {
      NamesLast(xs, i);
    }
  }

  lemma OneMoreIsLogged(b: Books, r: Books, r': Books, xs: seq<Commit>, machineId: string)
    requires xs != [] && forall k :: 0 <= k < |xs| ==> xs[k].id in b.tables.messages
    requires r.log == b.log + CountsOf(b, xs[..|xs| - 1], machineId)
    requires r'.log == r.log + [CountOf(b.tables.messages[xs[|xs| - 1].id], xs[|xs| - 1], machineId)]
    ensures r'.log == b.log + CountsOf(b, xs, machineId)
  {
  }

  lemma OneMoreCompletes(b: Books, r: Books, r': Books, xs: seq<Commit>, machineId: string)
    requires Committable(b, xs) && xs != []
    requires CompletesAll(b, r, xs[..|xs| - 1], machineId)
    requires xs[|xs| - 1].id in r.tables.messages
    requires r.tables.messages[xs[|xs| - 1].id] == b.tables.messages[xs[|xs| - 1].id]
    requires CompletesOne(r, r', xs[|xs| - 1], machineId)
    ensures CompletesAll(b, r', xs, machineId)
  {
    OneMoreIsSummarised(b, r, r', xs);
    OneMoreIsLogged(b, r, r', xs, machineId);
  }

  lemma NotYetStored(b: Books, xs: seq<Commit>)
    requires Committable(b, xs) && xs != []
    ensures var id := xs[|xs| - 1].id; StoreAll(b, xs[..|xs| - 1]).tables.messages[id] == b.tables.messages[id]
  {
    StoredRows(b, xs[..|xs| - 1]);
    assert !Names(xs[..|xs| - 1], xs[|xs| - 1].id);
  }

  lemma {:induction false} CompletingAll(b: Books, xs: seq<Commit>, machineId: string)
    requires LedgerSound(b) && RowsDistinct(b.tables) && Committable(b, xs) && machineId != ""
    ensures CompletesAll(b, CompleteAll(b, xs, machineId), xs, machineId)
  {
    if xs != [] {
      var n := |xs| - 1;
      var x, r := xs[n], CompleteAll(b, xs[..n], machineId);
      CompletingAll(b, xs[..n], machineId);
      NotYetStored(b, xs);
      CompleteOne(r, x, machineId);
      OneMoreCompletes(b, r, CompleteAll(b, xs, machineId), xs, machineId);
    }
  }

  // ---------------------------------------------------------------------------------------------
  // Reconciling what was stored

  lemma {:induction false} CountsAreRebuilt(b: Books, xs: seq<Commit>, machineId: string)
    requires Committable(b, xs)
    ensures |CountsOf(b, xs, machineId)| == |xs|
    ensures forall k :: 0 <= k < |xs| ==>
              CountsOf(b, xs, machineId)[k] == CountOf(b.tables.messages[xs[k].id], xs[k], machineId)
  {
    if xs != [] {
      CountsAreRebuilt(b, xs[..|xs| - 1], machineId);
    }
  }

  lemma StoringKeepsLedger(b: Books, xs: seq<Commit>)
    requires LedgerSound(b) && RowsDistinct(b.tables) && Committable(b, xs)
    ensures LedgerSound(StoreAll(b, xs)) && RowsDistinct(StoreAll(b, xs).tables)
    ensures forall k :: 0 <= k < |xs| ==> !SummaryApplied(b.tables, xs[k].id)
  {
    StoredRows(b, xs);
    forall i: nat | i in b.tables.messages && b.tables.messages[i].status.Completed?
      ensures StoreAll(b, xs).tables.messages[i] == b.tables.messages[i]
    {
      assert !Names(xs, i);
    }
  }

  lemma CommittedRowAwaits(b: Books, stored: Books, x: Commit, machineId: string)
    requires x.id in b.tables.messages && x.id in stored.tables.messages
    requires stored.tables.messages[x.id] == CommittedRow(b.tables.messages[x.id], x)
    requires !SummaryApplied(stored.tables, x.id)
    ensures AwaitsSummary(stored.tables, x.id)
    ensures Rebuilt(stored.tables, CountOf(b.tables.messages[x.id], x, machineId), machineId)
  {
  }

  lemma StoredCountsAreRebuilt(b: Books, xs: seq<Commit>, machineId: string)
    requires LedgerSound(b) && RowsDistinct(b.tables) && Committable(b, xs)
    ensures forall k :: 0 <= k < |xs| ==> AwaitsSummary(StoreAll(b, xs).tables, xs[k].id)
    ensures forall k :: 0 <= k < |CountsOf(b, xs, machineId)|
              ==> Rebuilt(StoreAll(b, xs).tables, CountsOf(b, xs, machineId)[k], machineId)
  {
    StoredRows(b, xs);
    StoringKeepsLedger(b, xs);
    CountsAreRebuilt(b, xs, machineId);
    forall k | 0 <= k < |xs|
      ensures AwaitsSummary(StoreAll(b, xs).tables, xs[k].id)
      ensures Rebuilt(StoreAll(b, xs).tables, CountsOf(b, xs, machineId)[k], machineId)
    {
      CommittedRowAwaits(b, StoreAll(b, xs), xs[k], machineId);
    }
  }

  /** Direct completion has caught up on the stored rows. */
  lemma CompletionCatchesUp(b: Books, xs: seq<Commit>, machineId: string)
    requires LedgerSound(b) && RowsDistinct(b.tables) && Committable(b, xs) && machineId != ""
    ensures CaughtUp(StoreAll(b, xs), CompleteAll(b, xs, machineId), machineId)
    ensures RowsDistinct(CompleteAll(b, xs, machineId).tables)
  {
    CompletingAll(b, xs, machineId);
    StoredCountsAreRebuilt(b, xs, machineId);
    StoringTouchesRowsOnly(b, xs);
    CaughtUpByCounts(StoreAll(b, xs), CompleteAll(b, xs, machineId), CountsOf(b, xs, machineId), xs, machineId);
  }

  lemma StoringTouchesRowsOnly(b: Books, xs: seq<Commit>)
    requires Committable(b, xs)
    ensures StoreAll(b, xs).log == b.log
    ensures forall i: nat :: SummaryApplied(StoreAll(b, xs).tables, i) <==> SummaryApplied(b.tables, i)
  {
    StoredRows(b, xs);
  }

  lemma CaughtUpByCounts(stored: Books, r: Books, counts: seq<Applied>, xs: seq<Commit>, machineId: string)
    requires LedgerSound(r) && r.tables.messages == stored.tables.messages && r.log == stored.log + counts
    requires forall i: nat :: SummaryApplied(r.tables, i) <==> SummaryApplied(stored.tables, i) || Names(xs, i)
    requires forall k :: 0 <= k < |xs| ==> AwaitsSummary(stored.tables, xs[k].id)
    requires forall k :: 0 <= k < |counts| ==> Rebuilt(stored.tables, counts[k], machineId)
    ensures CaughtUp(stored, r, machineId)
  {
    forall k | |stored.log| <= k < |r.log|
      ensures Rebuilt(stored.tables, r.log[k], machineId)
    {
      assert r.log[k] == counts[k - |stored.log|];
    }
  }

  /** Committing successes directly, in any order, and storing them to be reconciled in any batches give every group the
      same count and the same first and last completion time, once nothing awaits a summary any more. */
  lemma {:induction false} DirectAndReconciledTotalsAgree(
      b: Books, direct: seq<Commit>, stored: seq<Commit>, machineId: string,
      limit1: nat, calls1: nat, limit2: nat, calls2: nat, key: GroupKey)
    requires LedgerSound(b) && RowsDistinct(b.tables) && machineId != "" && limit1 > 0 && limit2 > 0
    requires Committable(b, direct) && Committable(b, stored) && multiset(direct) == multiset(stored)
    requires AwaitingIds(ReconciledTimes(CompleteAll(b, direct, machineId), limit1, machineId, calls1).tables) == {}
    requires AwaitingIds(ReconciledTimes(StoreAll(b, stored), limit2, machineId, calls2).tables) == {}
    ensures var b1 := ReconciledTimes(CompleteAll(b, direct, machineId), limit1, machineId, calls1);
      var b2 := ReconciledTimes(StoreAll(b, stored), limit2, machineId, calls2);
      GroupTotals(b1.tables.summaries, key) == GroupTotals(b2.tables.summaries, key)
  {
    var b0 := StoreAll(b, stored);
    StoringIgnoresOrder(b, direct, stored);
    StoringKeepsLedger(b, stored);
    CompletionCatchesUp(b, direct, machineId);
    TimesCatchUp(b0, CompleteAll(b, direct, machineId), limit1, machineId, calls1);
    TimesCatchUp(b0, b0, limit2, machineId, calls2);
    DrainedTotalsAgree(b0, ReconciledTimes(CompleteAll(b, direct, machineId), limit1, machineId, calls1),
                       ReconciledTimes(b0, limit2, machineId, calls2), machineId, key);
  }

  /** In particular, when nothing else awaits a summary, direct completion by itself. */
  lemma {:induction false} DirectTotalsEqualReconciledTotals(
      b: Books, direct: seq<Commit>, stored: seq<Commit>, machineId: string, limit: nat, calls: nat, key: GroupKey)
    requires LedgerSound(b) && RowsDistinct(b.tables) && machineId != "" && limit > 0 && AwaitingIds(b.tables) == {}
    requires Committable(b, direct) && Committable(b, stored) && multiset(direct) == multiset(stored)
    requires AwaitingIds(ReconciledTimes(StoreAll(b, stored), limit, machineId, calls).tables) == {}
    ensures GroupTotals(CompleteAll(b, direct, machineId).tables.summaries, key)
            == GroupTotals(ReconciledTimes(StoreAll(b, stored), limit, machineId, calls).tables.summaries, key)
  {
    NothingLeftToAwait(b, direct, machineId);
    DirectAndReconciledTotalsAgree(b, direct, stored, machineId, limit, 0, limit, calls, key);
  }

  lemma NothingLeftToAwait(b: Books, xs: seq<Commit>, machineId: string)
    requires LedgerSound(b) && RowsDistinct(b.tables) && machineId != "" && AwaitingIds(b.tables) == {}
    requires Committable(b, xs)
    ensures AwaitingIds(CompleteAll(b, xs, machineId).tables) == {}
  {
    CompletingAll(b, xs, machineId);
    StoredRows(b, xs);
    forall i | i in AwaitingIds(CompleteAll(b, xs, machineId).tables)
      ensures i in AwaitingIds(b.tables)
    {
      assert !Names(xs, i);
    }
  }
}
