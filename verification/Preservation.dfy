/** Every step of every actor keeps the invariant. */
module Preservation {
  import Clock
  import opened Wrappers
  import opened Selection
  import opened Responses
  import opened DailySummary
  import opened Store
  import opened System
  import opened Invariant

  // ---------------------------------------------------------------------------------------------
  // Frames: what most steps leave alone

  /** A row that nobody claims, fails or completes; the watchdog may still recover it. */
  ghost predicate Spared(m: Message, m': Message) {
    && SameSource(m, m')
    && m'.odooResponse == m.odooResponse && m'.completedAt == m.completedAt && m'.ack == m.ack
    && ((m'.status == m.status && m'.retryCount == m.retryCount)
        || (m.status.Processing? && m'.status.Failed? && m'.retryCount == m.retryCount + 1))
  }

  ghost predicate RowsSpared(t: Tables, t': Tables) {
    && t'.nextMessage == t.nextMessage
    && (forall i :: i in t'.messages ==> i in t.messages && Spared(t.messages[i], t'.messages[i]))
    && (forall i :: i in t.messages && i !in t'.messages ==> t.messages[i].status.Completed?)
  }

  ghost predicate WorkerSpared(w: Worker, w': Worker) {
    || (Owned(w') == Owned(w) && Waiting(w') == Waiting(w))
    || (Owned(w') == [] && Waiting(w') == [])
  }

  ghost predicate Undisturbed(s: State, s': State) {
    && RowsSpared(s.books.tables, s'.books.tables)
    && WorkerSpared(s.worker, s'.worker)
    && s'.history == s.history.(acks := s'.history.acks)
  }

  lemma UndisturbedQueue(c: Config, s: State, s': State)
    requires QueueInv(c, s) && Undisturbed(s, s')
    ensures QueueInv(c, s')
  {
  }

  lemma UndisturbedAnswers(c: Config, s: State, s': State)
    requires ResponsesCommitted(s) && ClosedRowsRest(c, s) && Undisturbed(s, s')
    ensures ResponsesCommitted(s') && ClosedRowsRest(c, s')
  {
  }

  /** No completed row is changed or invented, and no production row or count is touched. */
  ghost predicate LedgerUntouched(b: Books, b': Books) {
    && b'.log == b.log
    && b'.tables.summaries == b.tables.summaries
    && b'.tables.production == b.tables.production && b'.tables.nextProduction == b.tables.nextProduction
    && b'.tables.nextMessage >= b.tables.nextMessage
    && forall i :: i in b'.tables.messages && i < b.tables.nextMessage ==>
         && i in b.tables.messages
         && (b.tables.messages[i].status.Completed? ==>
               && b'.tables.messages[i].status.Completed?
               && b'.tables.messages[i].completedAt == b.tables.messages[i].completedAt)
  }

  lemma UntouchedLedger(b: Books, b': Books)
    requires LedgerSound(b) && LedgerUntouched(b, b')
    ensures LedgerSound(b')
  {
  }

  // ---------------------------------------------------------------------------------------------
  // The ledger

  lemma EntriesAppend(log: seq<Applied>, a: Applied)
    ensures Entries(log + [a]) == Entries(log) + [a.entry]
  {
  }

  lemma LogGrows(log: seq<Applied>, id: nat, e: Entry)
    requires CountedOnce(log) && !Counted(log, id)
    ensures CountedOnce(log + [Applied(id, e)])
    ensures forall i: nat :: Counted(log + [Applied(id, e)], i) <==> Counted(log, i) || i == id
  {
    var log' := log + [Applied(id, e)];
    assert log'[|log|].messageId == id;
    forall i: nat
      ensures Counted(log', i) <==> Counted(log, i) || i == id
    {
      if Counted(log, i) {
        var k :| 0 <= k < |log| && log[k].messageId == i;
        assert log'[k].messageId == i;
      }
    }
  }

  /** Settling an open account counts it once and leaves a production row to remember it. */
  lemma SettleKeepsLedger(b: Books, id: nat, e: Entry)
    requires LedgerSound(b)
    requires id in b.tables.messages && id < b.tables.nextMessage
    requires b.tables.messages[id].status.Completed? && b.tables.messages[id].completedAt == Some(At(e.completedAt))
    requires !SummaryApplied(b.tables, id)
    ensures LedgerSound(Settle(b, id, e))
  {
    assert !Counted(b.log, id);
    LogGrows(b.log, id, e);
    EntriesAppend(b.log, Applied(id, e));
    RebuildAppend(Entries(b.log), e);
    SettledTables(b, id, e);
  }

  lemma SettledTables(b: Books, id: nat, e: Entry)
    requires ProductionDistinct(b.tables)
    ensures ProductionDistinct(Settle(b, id, e).tables)
    ensures forall i: nat :: SummaryApplied(Settle(b, id, e).tables, i) <==> SummaryApplied(b.tables, i) || i == id
    ensures Settle(b, id, e).tables.messages == b.tables.messages
    ensures Settle(b, id, e).tables.nextMessage == b.tables.nextMessage
    ensures forall i: nat :: i in b.tables.production && i != id ==>
              i in Settle(b, id, e).tables.production
              && Settle(b, id, e).tables.production[i] == b.tables.production[i]
  {
  }

  /** The order of the three deletions and their shared batch: a production row goes only when its source
      row is gone, in this call or before it. */
  lemma CleanupSparesRememberedCounts(t: Tables, cutoff: int, batchSize: nat, id: nat)
    requires id in t.messages && CountRemembered(t, id) && ProductionDistinct(t)
    requires id in Deleted(t, CleanupSelection(t, cutoff, batchSize)).messages
    ensures id in Deleted(t, CleanupSelection(t, cutoff, batchSize)).production
  {
    var d := CleanupSelection(t, cutoff, batchSize);
    var p := t.production[id];
    if ProductionExpired(p, cutoff) {
      assert MessageExpired(t, id, cutoff);
      assert id in ExpiredMessages(t, cutoff) && id !in d.messages;
      assert |d.messages| == batchSize && d.production == [];
    } else {
      assert p.id !in ExpiredProduction(t, cutoff);
    }
  }

  lemma DeletionKeepsLedger(b: Books, cutoff: int, batchSize: nat)
    requires LedgerSound(b)
    ensures LedgerSound(b.(tables := Deleted(b.tables, CleanupSelection(b.tables, cutoff, batchSize))))
  {
    var t, d := b.tables, CleanupSelection(b.tables, cutoff, batchSize);
    forall i: nat | Counted(b.log, i) && i in Deleted(t, d).messages
      ensures CountRemembered(Deleted(t, d), i)
    {
      CleanupSparesRememberedCounts(t, cutoff, batchSize, i);
    }
  }

  lemma CompletingOpenRowKeepsLedger(b: Books, id: nat, row: Message)
    requires LedgerSound(b) && id in b.tables.messages && !b.tables.messages[id].status.Completed?
    ensures LedgerSound(b.(tables := b.tables.(messages := b.tables.messages[id := row])))
    ensures !SummaryApplied(b.tables, id)
  {
  }

  lemma ReconcileRowKeepsLedger(b: Books, id: nat, machineId: string)
    requires LedgerSound(b) && RowsDistinct(b.tables)
    ensures LedgerSound(ReconcileRow(b, id, machineId))
  {
    if ReconcileRow(b, id, machineId) != b {
      SettleKeepsLedger(b, id, StoredEntry(b.tables.messages[id], machineId));
    }
  }

  lemma {:induction false} ReconcileRowsKeepLedger(b: Books, ids: seq<nat>, machineId: string)
    requires LedgerSound(b) && RowsDistinct(b.tables)
    ensures LedgerSound(ReconcileRows(b, ids, machineId))
    ensures ReconcileRows(b, ids, machineId).tables.messages == b.tables.messages
    ensures ReconcileRows(b, ids, machineId).tables.nextMessage == b.tables.nextMessage
  {
    if ids != [] {
      ReconcileRowsKeepLedger(b, ids[..|ids| - 1], machineId);
      ReconcileRowKeepsLedger(ReconcileRows(b, ids[..|ids| - 1], machineId), ids[|ids| - 1], machineId);
    }
  }

  // ---------------------------------------------------------------------------------------------
  // Steps that disturb no row of the worker

  lemma UndisturbedKeeps(c: Config, s: State, s': State)
    requires Inv(c, s) && Undisturbed(s, s')
    requires AcksAnswer(s') && LedgerSound(s'.books)
    ensures Inv(c, s')
  {
    UndisturbedQueue(c, s, s');
    UndisturbedAnswers(c, s, s');
  }

  lemma LookUpFinds(s: State)
    requires ResponsesCommitted(s) && AcksAnswer(s)
    ensures AcksAnswer(OnLookUp(s)) && Undisturbed(s, OnLookUp(s))
  {
  }

  lemma LookUpKeeps(c: Config, s: State)
    requires Inv(c, s)
    ensures Inv(c, OnLookUp(s))
  {
    LookUpFinds(s);
    UndisturbedKeeps(c, s, OnLookUp(s));
  }

  lemma ReplayedSpares(b: Books, id: nat, now: int)
    requires RowsDistinct(b.tables) && id in b.tables.messages
    ensures var t' := Replayed(b.tables, id, now); RowsSpared(b.tables, t') && LedgerUntouched(b, b.(tables := t'))
  {
  }

  lemma ThrottleSpares(s: State, now: int)
    requires RowsDistinct(s.books.tables)
    ensures Undisturbed(s, OnThrottle(s, now)) && LedgerUntouched(s.books, OnThrottle(s, now).books)
  {
    if s.callback.Throttling? && FindIdentity(s.Messages(), s.callback.identity).Some? {
      ReplayedSpares(s.books, FindIdentity(s.Messages(), s.callback.identity).value, now);
    }
  }

  lemma ThrottleKeepsAcks(s: State, now: int)
    requires AcksAnswer(s)
    ensures AcksAnswer(OnThrottle(s, now))
  {
  }

  lemma ThrottleKeeps(c: Config, s: State, now: int)
    requires Inv(c, s)
    ensures Inv(c, OnThrottle(s, now))
  {
    ThrottleSpares(s, now);
    ThrottleKeepsAcks(s, now);
    UntouchedLedger(s.books, OnThrottle(s, now).books);
    UndisturbedKeeps(c, s, OnThrottle(s, now));
  }

  lemma AckSent(s: State, id: nat, ack: string, w: Worker, cb: Callback)
    requires AcksAnswer(s) && Answers(s.history, id, ack)
    requires (w == s.worker || (s.worker.Acknowledging? && w == Resume(s.worker.rest))) && (cb == s.callback || cb.Quiet?)
    ensures var s' := s.(worker := w, callback := cb, history := s.history.(acks := s.history.acks + multiset{(id, ack)}));
            AcksAnswer(s') && Undisturbed(s, s')
  {
  }

  lemma ReplayKeeps(c: Config, s: State)
    requires Inv(c, s)
    ensures Inv(c, OnReplay(s))
  {
    if s.callback.Sending? {
      AckSent(s, s.callback.id, s.callback.ack, s.worker, Quiet);
      UndisturbedKeeps(c, s, OnReplay(s));
    }
  }

  lemma AcknowledgeKeeps(c: Config, s: State)
    requires Inv(c, s)
    ensures Inv(c, OnAcknowledge(s))
  {
    if s.worker.Acknowledging? {
      AckSent(s, s.worker.id, s.worker.ack, Resume(s.worker.rest), s.callback);
      UndisturbedKeeps(c, s, OnAcknowledge(s));
    }
  }

  lemma StopKeeps(c: Config, s: State, callback: Callback)
    requires Inv(c, s) && (callback == s.callback || callback.Quiet?)
    ensures Inv(c, s.(worker := Idle, callback := callback))
  {
    UndisturbedKeeps(c, s, s.(worker := Idle, callback := callback));
  }

  /** Watchdog, cleanup, reconciliation and the HTTP handler change nothing but tables. */
  lemma TablesKeep(c: Config, s: State, b: Books)
    requires Inv(c, s) && RowsSpared(s.books.tables, b.tables) && LedgerSound(b)
    ensures Inv(c, s.(books := b))
  {
    UndisturbedKeeps(c, s, s.(books := b));
  }

  lemma RecoverySpares(t: Tables, staleBefore: int, excluded: set<nat>, at: int)
    ensures RowsSpared(t, Recovered(t, staleBefore, excluded, at))
  {
  }

  lemma RecoveryKeepsLedger(b: Books, staleBefore: int, excluded: set<nat>, at: int)
    requires LedgerSound(b) && RowsDistinct(b.tables)
    ensures LedgerSound(b.(tables := Recovered(b.tables, staleBefore, excluded, at)))
  {
  }

  lemma DeletionSpares(t: Tables, cutoff: int, batchSize: nat)
    ensures RowsSpared(t, Deleted(t, CleanupSelection(t, cutoff, batchSize)))
  {
  }

  lemma WatchdogKeeps(c: Config, s: State, staleBefore: int, excluded: set<nat>, at: int)
    requires Inv(c, s)
    ensures Inv(c, WithTables(s, Recovered(s.books.tables, staleBefore, excluded, at)))
  {
    var b' := s.books.(tables := Recovered(s.books.tables, staleBefore, excluded, at));
    RecoverySpares(s.books.tables, staleBefore, excluded, at);
    RecoveryKeepsLedger(s.books, staleBefore, excluded, at);
    TablesKeep(c, s, b');
  }

  lemma RetentionKeeps(c: Config, s: State, now: int)
    requires Inv(c, s)
    ensures Inv(c, WithTables(s, CleanedUp(s.books.tables, now, c.retentionDays, c.cleanupBatch)))
  {
    if c.cleanupBatch > 0 {
      var cutoff := Cutoff(now, c.retentionDays);
      DeletionSpares(s.books.tables, cutoff, c.cleanupBatch);
      DeletionKeepsLedger(s.books, cutoff, c.cleanupBatch);
      TablesKeep(c, s, s.books.(tables := Deleted(s.books.tables, CleanupSelection(s.books.tables, cutoff, c.cleanupBatch))));
    }
  }

  lemma ReconcileKeepsLedger(b: Books, limit: int, machineId: string)
    requires LedgerSound(b) && RowsDistinct(b.tables)
    ensures LedgerSound(Reconcile(b, limit, machineId)) && RowsSpared(b.tables, Reconcile(b, limit, machineId).tables)
  {
    if limit > 0 {
      ReconcileRowsKeepLedger(b, FirstIds(AwaitingIds(b.tables), limit), machineId);
    }
  }

  lemma ReconciliationKeeps(c: Config, s: State)
    requires Inv(c, s)
    ensures Inv(c, s.(books := Reconcile(s.books, c.reconcileLimit, c.machineId)))
  {
    ReconcileKeepsLedger(s.books, c.reconcileLimit, c.machineId);
    TablesKeep(c, s, Reconcile(s.books, c.reconcileLimit, c.machineId));
  }

  lemma ApiWriteKeeps(c: Config, s: State, commands: map<nat, Command>, next: nat)
    requires Inv(c, s)
    ensures Inv(c, WithTables(s, s.books.tables.(commands := commands, nextCommand := next)))
  {
    var b' := s.books.(tables := s.books.tables.(commands := commands, nextCommand := next));
    UntouchedLedger(s.books, b');
    TablesKeep(c, s, b');
  }

  // ---------------------------------------------------------------------------------------------
  // Receiving and claiming

  lemma ReceiveKeepsQueue(c: Config, s: State, m: Message)
    requires QueueInv(c, s)
    ensures QueueInv(c, OnReceive(s, m))
  {
    if FreshRow(m) && FindIdentity(s.Messages(), m.Identity()).None? {
      FreshRowKeepsQueue(c, s, m);
    }
  }

  lemma FreshRowKeepsQueue(c: Config, s: State, m: Message)
    requires QueueInv(c, s) && FreshRow(m) && forall i :: i in s.Messages() ==> s.Messages()[i].Identity() != m.Identity()
    ensures QueueInv(c, WithTables(s, Insert(s.books.tables, m)))
  {
  }

  lemma ReceiveKeepsAnswers(c: Config, s: State, m: Message)
    requires RowsDistinct(s.books.tables) && AnswerInv(c, s)
    ensures AnswerInv(c, OnReceive(s, m))
  {
    if FreshRow(m) {
      FreshRowKeepsAnswers(c, s, m);
    }
  }

  lemma FreshRowKeepsAnswers(c: Config, s: State, m: Message)
    requires RowsDistinct(s.books.tables) && AnswerInv(c, s) && FreshRow(m)
    ensures AnswerInv(c, WithTables(s, Insert(s.books.tables, m)))
  {
  }

  lemma ReceiveLeavesLedger(s: State, m: Message)
    requires RowsDistinct(s.books.tables)
    ensures LedgerUntouched(s.books, OnReceive(s, m).books)
  {
  }

  lemma ReceiveKeeps(c: Config, s: State, m: Message)
    requires Inv(c, s)
    ensures Inv(c, OnReceive(s, m))
  {
    ReceiveKeepsQueue(c, s, m);
    ReceiveKeepsAnswers(c, s, m);
    ReceiveLeavesLedger(s, m);
    UntouchedLedger(s.books, OnReceive(s, m).books);
  }

  lemma {:induction false} DistinctMultiplicity(ids: seq<nat>, i: nat)
    requires Distinct(ids)
    ensures multiset(ids)[i] == if i in ids then 1 else 0
  {
    if ids != [] {
      var n := |ids| - 1;
      assert ids == ids[..n] + [ids[n]];
      DistinctMultiplicity(ids[..n], i);
    }
  }

  lemma SelectionIsClaimable(t: Tables, batchSize: int, maxRetries: int)
    ensures Distinct(ClaimSelection(t, batchSize, maxRetries))
    ensures forall i :: i in ClaimSelection(t, batchSize, maxRetries)
                        ==> i in t.messages && t.messages[i].Claimable(maxRetries)
  {
    var ids := ClaimSelection(t, batchSize, maxRetries);
    forall i | i in ids
      ensures i in t.messages && t.messages[i].Claimable(maxRetries)
    {
      assert i in ClaimableIds(t.messages, maxRetries);
    }
  }

  ghost predicate TakenRow(m: Message, m': Message, taken: bool) {
    m' == if taken then m.(status := Processing, lastAttemptAt := m'.lastAttemptAt) else m
  }

  /** An idle worker takes claimable rows, once each, and touches no other row. */
  ghost predicate Takes(c: Config, s: State, s': State, ids: seq<nat>) {
    && Owned(s.worker) == [] && Waiting(s.worker) == []
    && Owned(s'.worker) == ids && Waiting(s'.worker) == ids && Distinct(ids)
    && s'.books.tables.nextMessage == s.books.tables.nextMessage
    && s'.Messages().Keys == s.Messages().Keys
    && (forall i :: i in ids ==> i in s.Messages() && s.Messages()[i].Claimable(c.maxRetries))
    && (forall i :: i in s.Messages() ==> TakenRow(s.Messages()[i], s'.Messages()[i], i in ids))
    && s'.history == s.history.(claims := s'.history.claims)
    && (forall i :: s'.history.claims[i] == s.history.claims[i] + (if i in ids then 1 else 0))
  }

  lemma ClaimTakes(c: Config, s: State, now: int)
    requires s.worker.Idle?
    ensures Takes(c, s, OnClaim(c, s, now), ClaimSelection(s.books.tables, c.batchSize, c.maxRetries))
  {
    var ids := ClaimSelection(s.books.tables, c.batchSize, c.maxRetries);
    SelectionIsClaimable(s.books.tables, c.batchSize, c.maxRetries);
    var taken: multiset<nat> := multiset(ids);
    forall i: nat
      ensures taken[i] == if i in ids then 1 else 0
    {
      DistinctMultiplicity(ids, i);
    }
  }

  lemma TakingKeepsRows(c: Config, s: State, s': State, ids: seq<nat>)
    requires RowsDistinct(s.books.tables) && Takes(c, s, s', ids)
    ensures RowsDistinct(s'.books.tables) && OwnedRowsOpen(s')
  {
  }

  lemma TakingKeepsCounts(c: Config, s: State, s': State, ids: seq<nat>)
    requires RowsDistinct(s.books.tables) && ClaimsBounded(c, s) && Takes(c, s, s', ids)
    ensures ClaimsBounded(c, s')
  {
  }

  lemma TakingKeepsSubmissions(c: Config, s: State, s': State, ids: seq<nat>)
    requires SubmissionsClaimed(s) && Takes(c, s, s', ids)
    ensures SubmissionsClaimed(s')
  {
  }

  lemma TakingKeepsAnswers(c: Config, s: State, s': State, ids: seq<nat>)
    requires AnswerInv(c, s) && Takes(c, s, s', ids)
    requires s'.callback == s.callback && !s'.worker.Acknowledging?
    ensures AnswerInv(c, s')
  {
  }

  lemma ClaimLeavesLedger(t: Tables, ids: seq<nat>, at: int, log: seq<Applied>)
    requires RowsDistinct(t) && forall i :: i in ids && i in t.messages ==> !t.messages[i].status.Completed?
    ensures LedgerUntouched(Books(t, log), Books(Claimed(t, ids, at), log))
  {
  }

  lemma ClaimKeeps(c: Config, s: State, now: int)
    requires Inv(c, s)
    ensures Inv(c, OnClaim(c, s, now))
  {
    if s.worker.Idle? {
      var ids, s' := ClaimSelection(s.books.tables, c.batchSize, c.maxRetries), OnClaim(c, s, now);
      ClaimTakes(c, s, now);
      TakingKeepsRows(c, s, s', ids);
      TakingKeepsCounts(c, s, s', ids);
      TakingKeepsSubmissions(c, s, s', ids);
      TakingKeepsAnswers(c, s, s', ids);
      ClaimLeavesLedger(s.books.tables, ids, Clock.Stored(now), s.books.log);
      UntouchedLedger(s.books, s'.books);
    }
  }

  // ---------------------------------------------------------------------------------------------
  // Committing an outcome

  /** The worker writes the row of the message it has in hand, and lets go of it. */
  ghost predicate Commits(s: State, s': State, id: nat, row: Message) {
    && id in s.Messages() && row.Identity() == s.Messages()[id].Identity()
    && Owned(s.worker) == [id] + Owned(s'.worker) && Waiting(s'.worker) == Owned(s'.worker)
    && (Waiting(s.worker) == Owned(s.worker) || Waiting(s.worker) == Owned(s'.worker))
    && s'.Messages() == s.Messages()[id := row]
    && s'.books.tables.nextMessage == s.books.tables.nextMessage
    && s'.history.claims == s.history.claims && s'.history.submissions == s.history.submissions
  }

  lemma CommitKeepsQueue(c: Config, s: State, s': State, id: nat, row: Message)
    requires QueueInv(c, s) && Commits(s, s', id, row)
    requires (row.status.Failed? && row.retryCount > s.Messages()[id].retryCount)
             || (row.status.Completed? && row.retryCount == s.Messages()[id].retryCount)
    ensures QueueInv(c, s')
  {
    CommitKeepsOwnership(s, s', id, row);
  }

  lemma CommitKeepsOwnership(s: State, s': State, id: nat, row: Message)
    requires OwnedRowsOpen(s) && Commits(s, s', id, row)
    ensures OwnedRowsOpen(s') && id !in Owned(s'.worker)
    ensures !s.Messages()[id].status.Completed? && !s.Messages()[id].status.New?
  {
    var rest := Owned(s'.worker);
    assert Owned(s.worker)[0] == id;
    assert forall k :: 0 <= k < |rest| ==> Owned(s.worker)[k + 1] == rest[k];
  }

  lemma FailureKeepsAnswers(c: Config, s: State, s': State, id: nat, row: Message)
    requires OwnedRowsOpen(s) && AnswerInv(c, s) && Commits(s, s', id, row) && row.status.Failed?
    requires id < s.books.tables.nextMessage
    requires s'.callback == s.callback && !s'.worker.Acknowledging?
    requires s'.history == s.history.(closed := s'.history.closed)
    requires s'.history.closed == s.history.closed
             || (s'.history.closed == s.history.closed + {id} && row.retryCount >= c.maxRetries)
    ensures AnswerInv(c, s')
  {
    CommitKeepsOwnership(s, s', id, row);
    assert id in Owned(s.worker);
  }

  lemma OpenRowLeavesLedger(b: Books, id: nat, row: Message)
    requires RowsDistinct(b.tables) && id in b.tables.messages && !b.tables.messages[id].status.Completed?
    ensures LedgerUntouched(b, b.(tables := b.tables.(messages := b.tables.messages[id := row])))
  {
  }

  lemma FailKeeps(c: Config, s: State, response: Option<Text>, floor: Option<int>)
    requires Inv(c, s) && s.worker.Submitting? && s.worker.id in s.Messages()
    requires floor.Some? ==> floor.value == c.maxRetries
    ensures Inv(c, Fail(s, response, floor))
  {
    var id, s' := s.worker.id, Fail(s, response, floor);
    var row := FailedRow(s.Messages()[id], s.worker.startedAt, response, floor);
    assert Commits(s, s', id, row);
    CommitKeepsQueue(c, s, s', id, row);
    CommitKeepsOwnership(s, s', id, row);
    FailureKeepsAnswers(c, s, s', id, row);
    OpenRowLeavesLedger(s.books, id, row);
    UntouchedLedger(s.books, s'.books);
  }

  lemma BeginKeeps(c: Config, s: State, now: int)
    requires Inv(c, s)
    ensures Inv(c, OnBegin(s, now))
  {
    if s.worker.Working? && s.worker.rest != [] {
      var id, s' := s.worker.rest[0], OnBegin(s, now);
      assert s.worker.rest == [id] + s.worker.rest[1..];
      assert id in Owned(s.worker);
      if PayloadFromRecord(s.Messages()[id].payload).None? {
        var row := FailedRow(s.Messages()[id], Clock.Stored(now), None, None);
        assert Commits(s, s', id, row);
        CommitKeepsQueue(c, s, s', id, row);
        CommitKeepsOwnership(s, s', id, row);
        FailureKeepsAnswers(c, s, s', id, row);
        OpenRowLeavesLedger(s.books, id, row);
        UntouchedLedger(s.books, s'.books);
      } else {
        SubmitKeeps(c, s, id, Clock.Stored(now));
      }
    }
  }

  ghost function Submitted(s: State, id: nat, at: int): State
    requires s.worker.Working? && s.worker.rest != []
  {
    s.(worker := Submitting(id, at, s.worker.rest[1..]),
       history := s.history.(submissions := s.history.submissions + multiset{id}))
  }

  lemma SubmitKeeps(c: Config, s: State, id: nat, at: int)
    requires QueueInv(c, s) && AnswerInv(c, s)
    requires s.worker.Working? && s.worker.rest != [] && id == s.worker.rest[0]
    ensures QueueInv(c, Submitted(s, id, at)) && AnswerInv(c, Submitted(s, id, at))
  {
    assert s.worker.rest == [id] + s.worker.rest[1..];
    SubmissionWasClaimed(s, id, at);
    SubmissionLeavesAnswers(c, s, id, at);
  }

  lemma SubmissionLeavesAnswers(c: Config, s: State, id: nat, at: int)
    requires AnswerInv(c, s)
    requires s.worker.Working? && s.worker.rest != [] && s.worker.rest == [id] + s.worker.rest[1..]
    ensures AnswerInv(c, Submitted(s, id, at))
  {
  }

  lemma SubmissionWasClaimed(s: State, id: nat, at: int)
    requires OwnedRowsOpen(s) && SubmissionsClaimed(s)
    requires s.worker.Working? && s.worker.rest != [] && s.worker.rest == [id] + s.worker.rest[1..]
    ensures SubmissionsClaimed(Submitted(s, id, at))
  {
    var s', batch := Submitted(s, id, at), s.worker.rest;
    assert Owned(s.worker) == batch && Waiting(s'.worker) == batch[1..];
    assert forall k :: 0 <= k < |batch[1..]| ==> batch[1..][k] == batch[k + 1] && batch[0] != batch[k + 1];
    forall i: nat
      ensures s'.history.submissions[i] + Pending(s'.worker, i) <= s'.history.claims[i]
    {
      assert i in batch <==> i == id || i in batch[1..];
      assert s'.history.submissions[i] == s.history.submissions[i] + if i == id then 1 else 0;
      assert s.history.submissions[i] + Pending(s.worker, i) <= s.history.claims[i];
    }
  }

  /** A committed success is the first and only one: the row was still open. */
  lemma SuccessKeepsAnswers(c: Config, s: State, s': State, id: nat, row: Message, response: Json, ack: string)
    requires RowsDistinct(s.books.tables) && OwnedRowsOpen(s) && AnswerInv(c, s) && Commits(s, s', id, row)
    requires row.status.Completed? && row.odooResponse == Some(Dumped(response)) && ExtractAck(response) == Some(ack)
    requires s'.callback == s.callback && s'.worker == Acknowledging(id, ack, Owned(s'.worker))
    requires s'.history == s.history.(completions := s.history.completions + multiset{id},
                                      responses := s.history.responses[id := Dumped(response)])
    ensures AnswerInv(c, s')
  {
    CommitKeepsOwnership(s, s', id, row);
    StoredAckIsExtractedAck(response);
    assert id in Owned(s.worker) && id !in s.history.responses;
    SuccessIsRecorded(s, s', id, row, response);
    assert Answers(s'.history, id, ack);
    assert forall i, other :: Answers(s.history, i, other) ==> Answers(s'.history, i, other);
  }

  lemma SuccessIsRecorded(s: State, s': State, id: nat, row: Message, response: Json)
    requires RowsDistinct(s.books.tables) && ResponsesCommitted(s) && id !in s.history.responses
    requires Commits(s, s', id, row) && row.status.Completed? && row.odooResponse == Some(Dumped(response))
    requires s'.history == s.history.(completions := s.history.completions + multiset{id},
                                      responses := s.history.responses[id := Dumped(response)])
    ensures ResponsesCommitted(s')
  {
  }

  lemma CompletionKeepsLedger(b: Books, id: nat, response: Text, completedAt: int, ack: Option<string>,
                              given: Metadata, machineId: string)
    requires LedgerSound(b) && RowsDistinct(b.tables)
    requires id in b.tables.messages && !b.tables.messages[id].status.Completed?
    ensures LedgerSound(MarkCompleted(b, id, response, completedAt, ack, given, machineId))
  {
    var row := CompletedRow(b.tables.messages[id], response, completedAt, ack);
    var done := b.(tables := b.tables.(messages := b.tables.messages[id := row]));
    CompletingOpenRowKeepsLedger(b, id, row);
    if Truthy(ack) {
      var machine := if machineId == "" then DEFAULT_MACHINE_ID else machineId;
      SettleKeepsLedger(done, id, EntryOf(b.tables.messages[id], completedAt, machine, ack.value,
                                          Prefer(given, MetadataFromText(response))));
    }
  }

  lemma CompleteCommits(c: Config, s: State, response: Json, ack: string, now: int)
    requires s.worker.Submitting? && s.worker.id in s.Messages()
    ensures Commits(s, Complete(c, s, response, ack, now), s.worker.id,
                    CompletedRow(s.Messages()[s.worker.id], Dumped(response), Clock.Stored(now), Some(ack)))
  {
  }

  lemma CompleteKeepsQueue(c: Config, s: State, response: Json, ack: string, now: int)
    requires QueueInv(c, s) && s.worker.Submitting? && s.worker.id in s.Messages()
    ensures QueueInv(c, Complete(c, s, response, ack, now))
    ensures !s.Messages()[s.worker.id].status.Completed?
  {
    var row := CompletedRow(s.Messages()[s.worker.id], Dumped(response), Clock.Stored(now), Some(ack));
    CompleteCommits(c, s, response, ack, now);
    CommitKeepsQueue(c, s, Complete(c, s, response, ack, now), s.worker.id, row);
    CommitKeepsOwnership(s, Complete(c, s, response, ack, now), s.worker.id, row);
  }

  lemma CompleteKeepsAnswers(c: Config, s: State, response: Json, ack: string, now: int)
    requires RowsDistinct(s.books.tables) && OwnedRowsOpen(s) && AnswerInv(c, s)
    requires s.worker.Submitting? && s.worker.id in s.Messages() && Judge(response) == Success(ack)
    ensures AnswerInv(c, Complete(c, s, response, ack, now))
  {
    var row := CompletedRow(s.Messages()[s.worker.id], Dumped(response), Clock.Stored(now), Some(ack));
    CompleteCommits(c, s, response, ack, now);
    SuccessKeepsAnswers(c, s, Complete(c, s, response, ack, now), s.worker.id, row, response, ack);
  }

  lemma CompleteKeeps(c: Config, s: State, response: Json, ack: string, now: int)
    requires Inv(c, s) && s.worker.Submitting? && s.worker.id in s.Messages()
    requires Judge(response) == Success(ack)
    ensures Inv(c, Complete(c, s, response, ack, now))
  {
    CompleteKeepsQueue(c, s, response, ack, now);
    CompleteKeepsAnswers(c, s, response, ack, now);
    CompletionKeepsLedger(s.books, s.worker.id, Dumped(response), Clock.Stored(now), Some(ack),
                          DashboardMetadata(response), c.machineId);
  }

  // ---------------------------------------------------------------------------------------------
  // Any step, any run

  lemma SubmittedIsOwned(s: State)
    requires OwnedRowsOpen(s) && s.worker.Submitting?
    ensures s.worker.id in s.Messages() && s.worker.id !in s.worker.rest
  {
    assert Owned(s.worker)[0] == s.worker.id;
    assert forall k :: 0 <= k < |s.worker.rest| ==> Owned(s.worker)[k + 1] == s.worker.rest[k];
    assert s.worker.id in Owned(s.worker);
  }

  lemma FinishKeeps(c: Config, s: State, outcome: Outcome, now: int)
    requires Inv(c, s)
    ensures Inv(c, OnFinish(c, s, outcome, now))
  {
    if s.worker.Submitting? {
      SubmittedIsOwned(s);
      match outcome
      case TimedOut => FailKeeps(c, s, None, Some(c.maxRetries));
      case Error => FailKeeps(c, s, None, None);
      case Response(value) =>
        match Judge(value)
        case Retryable => FailKeeps(c, s, Some(Dumped(value)), None);
        case Final => FailKeeps(c, s, Some(Dumped(value)), Some(c.maxRetries));
        case Success(ack) => CompleteKeeps(c, s, value, ack, now);
    }
  }

  lemma {:induction false} StepKeeps(c: Config, s: State, a: Action)
    requires Inv(c, s)
    ensures Inv(c, Apply(c, s, a))
  {
    match a
    case Receive(m) => ReceiveKeeps(c, s, m);
    case LookUp => LookUpKeeps(c, s);
    case Throttle(now) => ThrottleKeeps(c, s, now);
    case Replay => ReplayKeeps(c, s);
    case Claim(now) => ClaimKeeps(c, s, now);
    case Begin(now) => BeginKeeps(c, s, now);
    case Finish(outcome, now) => FinishKeeps(c, s, outcome, now);
    case Acknowledge => AcknowledgeKeeps(c, s);
    case Abandon => StopKeeps(c, s, s.callback);
    case Crash => StopKeeps(c, s, Quiet);
    case Watchdog(now, excluded) => WatchdogKeeps(c, s, StaleBefore(c, now), excluded, Clock.Stored(now));
    case Reconciliation => ReconciliationKeeps(c, s);
    case Retention(now) => RetentionKeeps(c, s, now);
    case ApiWrite(commands, next) => ApiWriteKeeps(c, s, commands, next);
  }

  lemma {:induction false} RunKeeps(c: Config, s: State, actions: seq<Action>)
    requires Inv(c, s)
    ensures Inv(c, Run(c, s, actions))
  {
    if actions != [] {
      var before, last := actions[..|actions| - 1], actions[|actions| - 1];
      RunKeeps(c, s, before);
      StepKeeps(c, Run(c, s, before), last);
    }
  }
}
