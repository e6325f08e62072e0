/** Nothing lost and nothing invented: which messages a run counts, and what each count says. */
module Accounting {
  import opened Wrappers
  import opened Clock
  import opened Responses
  import opened DailySummary
  import opened Totals
  import opened Store
  import opened System
  import opened Invariant
  import opened Preservation
  import opened Guarantees
  import opened Reconciliation

  // ---------------------------------------------------------------------------------------------
  // What one step counts

  function Machine(c: Config): string { if c.machineId == "" then DEFAULT_MACHINE_ID else c.machineId }

  /** The entry says about the job what the stored response says, and carries its ACK. */
  predicate OfResponse(c: Config, text: Text, e: Entry) {
    var md := MetadataFromText(text);
    && e.machineId == Machine(c) && StoredAck(Some(text)) == Some(e.ack)
    && e.customerId == md.customerId && e.batchNumber == md.batchNumber && e.operatorId == md.operatorId
    && e.labels == Labels(md.customerName, md.operatorName, md.numberOfOperators)
  }

  predicate OfProduct(m: Message, e: Entry) { e.tableNo == m.tableNo && e.model == m.model }

  /** The step commits the first success of message id and counts it. */
  ghost predicate CountsCommit(c: Config, s: State, s': State, id: nat) {
    && id in s.Messages() && !s.Messages()[id].status.Completed? && id !in s.history.responses
    && s'.history.completions == s.history.completions + multiset{id}
    && id in s'.history.responses && s'.history.responses == s.history.responses[id := s'.history.responses[id]]
    && |s'.books.log| == |s.books.log| + 1 && s.books.log <= s'.books.log
    && s'.books.log[|s.books.log|].messageId == id
    && OfResponse(c, s'.history.responses[id], s'.books.log[|s.books.log|].entry)
    && OfProduct(s.Messages()[id], s'.books.log[|s.books.log|].entry)
  }

  ghost predicate CommitsNothing(s: State, s': State) {
    s'.history.completions == s.history.completions && s'.history.responses == s.history.responses
  }

  /** Only counts that reconciliation rebuilt from the table are added. */
  ghost predicate CountsStored(c: Config, s: State, s': State) {
    && CommitsNothing(s, s') && s.books.log <= s'.books.log
    && forall k :: |s.books.log| <= k < |s'.books.log| ==> Rebuilt(s.books.tables, s'.books.log[k], c.machineId)
  }

  ghost predicate Counts(c: Config, s: State, s': State) {
    CountsStored(c, s, s') || (s.worker.Submitting? && CountsCommit(c, s, s', s.worker.id))
  }

  lemma CompleteCounts(c: Config, s: State, response: Json, ack: string, now: int)
    requires QueueInv(c, s) && ResponsesCommitted(s) && LedgerSound(s.books)
    requires s.worker.Submitting? && s.worker.id in s.Messages() && Judge(response) == Success(ack)
    ensures CountsCommit(c, s, Complete(c, s, response, ack, now), s.worker.id)
  {
    var row := CompletedRow(s.Messages()[s.worker.id], Dumped(response), Stored(now), Some(ack));
    CompleteKeepsQueue(c, s, response, ack, now);
    CompletingOpenRowKeepsLedger(s.books, s.worker.id, row);
    MetadataSurvivesStorage(response);
    StoredAckIsExtractedAck(response);
  }

  lemma FailCounts(c: Config, s: State, response: Option<Text>, floor: Option<int>)
    requires s.worker.Submitting? && s.worker.id in s.Messages()
    ensures CountsStored(c, s, Fail(s, response, floor))
  {
  }

  lemma FinishCounts(c: Config, s: State, outcome: Outcome, now: int)
    requires Inv(c, s)
    ensures Counts(c, s, OnFinish(c, s, outcome, now))
  {
    if s.worker.Submitting? {
      SubmittedIsOwned(s);
      match outcome
      case TimedOut => FailCounts(c, s, None, Some(c.maxRetries));
      case Error => FailCounts(c, s, None, None);
      case Response(value) =>
        match Judge(value)
        case Retryable => FailCounts(c, s, Some(Dumped(value)), None);
        case Final => FailCounts(c, s, Some(Dumped(value)), Some(c.maxRetries));
        case Success(ack) => CompleteCounts(c, s, value, ack, now);
    }
  }

  lemma ReconciliationCounts(c: Config, s: State)
    ensures CountsStored(c, s, s.(books := Reconcile(s.books, c.reconcileLimit, c.machineId)))
  {
    if c.reconcileLimit > 0 {
      CallVisits(s.books, c.reconcileLimit, c.machineId);
    }
  }

  lemma OthersCountNothing(c: Config, s: State, a: Action)
    requires !a.Finish? && !a.Reconciliation?
    ensures CommitsNothing(s, Apply(c, s, a)) && Apply(c, s, a).books.log == s.books.log
  {
  }

  /** Every step commits and counts one success, or commits none and counts only what the table already held. */
  lemma StepCounts(c: Config, s: State, a: Action)
    requires Inv(c, s)
    ensures Counts(c, s, Apply(c, s, a))
  {
    match a
    case Finish(outcome, now) => FinishCounts(c, s, outcome, now);
    case Reconciliation => ReconciliationCounts(c, s);
    case _ => OthersCountNothing(c, s, a);
  }

  // ---------------------------------------------------------------------------------------------
  // What a run has counted

  /** The row was COMPLETED when the run began and is as it was then. */
  ghost predicate StoredAtStart(s0: State, i: nat, m: Message) {
    && i in s0.Messages() && s0.Messages()[i].status.Completed?
    && StillDone(m, s0.Messages()[i]) && SameSource(s0.Messages()[i], m)
  }

  /** A completed row was completed by this run or before it. */
  ghost predicate Originates(s0: State, s: State) {
    && (forall i :: i in s.history.responses <==> i in s0.history.responses || s.history.completions[i] > 0)
    && (forall i :: i in s.Messages() && s.Messages()[i].status.Completed?
                    ==> s.history.completions[i] > 0 || StoredAtStart(s0, i, s.Messages()[i]))
  }

  /** Every success that was committed has been counted. */
  ghost predicate NothingLost(s: State) {
    forall i: nat :: s.history.completions[i] > 0 ==> Counted(s.books.log, i)
  }

  /** A count is that of a success committed in this run, and says what the response says; or it was rebuilt from a row
      that was already completed, but not yet summarised, when the run began. */
  ghost predicate Explained(c: Config, s0: State, s: State, a: Applied) {
    || (&& s.history.completions[a.messageId] > 0 && a.messageId in s.history.responses
        && OfResponse(c, s.history.responses[a.messageId], a.entry))
    || (&& a.messageId in s0.Messages() && AwaitsSummary(s0.books.tables, a.messageId) && Readable(s0.books.tables, a.messageId)
        && a.entry == StoredEntry(s0.Messages()[a.messageId], c.machineId))
  }

  ghost predicate NothingInvented(c: Config, s0: State, s: State) {
    forall k :: 0 <= k < |s.books.log| ==> Explained(c, s0, s, s.books.log[k])
  }

  ghost predicate Balanced(c: Config, s0: State, s: State) {
    Originates(s0, s) && NothingLost(s) && NothingInvented(c, s0, s)
  }

  /** A completed row was completed before the step and kept, or is completed by it with a response to replay. */
  lemma CompletedEdge(c: Config, m: Message, m': Message)
    requires Edge(c, m, m') && m'.status.Completed?
    ensures SameSource(m, m')
    ensures if m.status.Completed? then StillDone(m', m) else Replayable(m')
  {
  }

  lemma CompletedRowHasEdge(c: Config, s: State, a: Action, i: nat)
    requires RowsDistinct(s.books.tables) && OwnedRowsOpen(s)
    requires i in Apply(c, s, a).Messages() && Apply(c, s, a).Messages()[i].status.Completed?
    ensures i in s.Messages() && Edge(c, s.Messages()[i], Apply(c, s, a).Messages()[i])
  {
    EveryStepFollowsTheDiagram(c, s, a);
  }

  lemma CompletedRowsOriginate(c: Config, s0: State, s: State, a: Action, i: nat)
    requires Inv(c, s) && ResponsesCommitted(Apply(c, s, a)) && Originates(s0, s)
    requires forall j :: j in Apply(c, s, a).history.responses
               <==> j in s0.history.responses || Apply(c, s, a).history.completions[j] > 0
    requires s.history.completions <= Apply(c, s, a).history.completions
    requires i in Apply(c, s, a).Messages() && Apply(c, s, a).Messages()[i].status.Completed?
    ensures var s' := Apply(c, s, a); s'.history.completions[i] > 0 || StoredAtStart(s0, i, s'.Messages()[i])
  {
    CompletedRowHasEdge(c, s, a, i);
    CompletedEdge(c, s.Messages()[i], Apply(c, s, a).Messages()[i]);
  }

  lemma ResponsesOriginate(c: Config, s0: State, s: State, s': State)
    requires Counts(c, s, s') && Originates(s0, s)
    ensures forall i :: i in s'.history.responses <==> i in s0.history.responses || s'.history.completions[i] > 0
    ensures s.history.completions <= s'.history.completions
  {
  }

  lemma StepOriginates(c: Config, s0: State, s: State, a: Action)
    requires Inv(c, s) && Inv(c, Apply(c, s, a)) && Originates(s0, s)
    ensures Originates(s0, Apply(c, s, a))
  {
    StepCounts(c, s, a);
    ResponsesOriginate(c, s0, s, Apply(c, s, a));
    forall i | i in Apply(c, s, a).Messages() && Apply(c, s, a).Messages()[i].status.Completed?
      ensures Apply(c, s, a).history.completions[i] > 0 || StoredAtStart(s0, i, Apply(c, s, a).Messages()[i])
    {
      CompletedRowsOriginate(c, s0, s, a, i);
    }
  }

  /** A row that still awaits its summary is not one that this run completed. */
  lemma RebuiltIsExplained(c: Config, s0: State, s: State, s': State, a: Applied)
    requires Init(s0) && LedgerSound(s.books) && Originates(s0, s) && NothingLost(s)
    requires Rebuilt(s.books.tables, a, c.machineId)
    ensures Explained(c, s0, s', a)
  {
    var i := a.messageId;
    assert !Counted(s.books.log, i);
    assert StoredAtStart(s0, i, s.Messages()[i]);
  }

  lemma ExplanationLasts(c: Config, s0: State, s: State, s': State, a: Applied)
    requires Explained(c, s0, s, a) && Counts(c, s, s')
    ensures Explained(c, s0, s', a)
  {
  }

  lemma CountedLasts(log: seq<Applied>, log': seq<Applied>, i: nat)
    requires log <= log' && Counted(log, i)
    ensures Counted(log', i)
  {
    var k :| 0 <= k < |log| && log[k].messageId == i;
    assert log'[k].messageId == i;
  }

  lemma StepLosesNothing(c: Config, s: State, s': State)
    requires NothingLost(s) && Counts(c, s, s')
    ensures NothingLost(s')
  {
    forall i: nat | s'.history.completions[i] > 0
      ensures Counted(s'.books.log, i)
    {
      if s.history.completions[i] > 0 {
        CountedLasts(s.books.log, s'.books.log, i);
      } else {
        assert s'.books.log[|s.books.log|].messageId == i;
      }
    }
  }

  lemma NewCountIsExplained(c: Config, s0: State, s: State, s': State, k: nat)
    requires Init(s0) && LedgerSound(s.books) && Originates(s0, s) && NothingLost(s)
    requires Counts(c, s, s') && |s.books.log| <= k < |s'.books.log|
    ensures Explained(c, s0, s', s'.books.log[k])
  {
    if CountsStored(c, s, s') {
      RebuiltIsExplained(c, s0, s, s', s'.books.log[k]);
    }
  }

  lemma StepInventsNothing(c: Config, s0: State, s: State, s': State)
    requires Init(s0) && LedgerSound(s.books) && Balanced(c, s0, s)
    requires Counts(c, s, s')
    ensures NothingInvented(c, s0, s')
  {
    forall k | 0 <= k < |s'.books.log|
      ensures Explained(c, s0, s', s'.books.log[k])
    {
      if k < |s.books.log| {
        assert s'.books.log[k] == s.books.log[k];
        assert Explained(c, s0, s, s.books.log[k]);
        ExplanationLasts(c, s0, s, s', s.books.log[k]);
      } else {
        NewCountIsExplained(c, s0, s, s', k);
      }
    }
  }

  lemma StepBalances(c: Config, s0: State, s: State, a: Action)
    requires Init(s0) && Inv(c, s) && Balanced(c, s0, s)
    ensures Balanced(c, s0, Apply(c, s, a))
  {
    StepKeeps(c, s, a);
    StepCounts(c, s, a);
    StepOriginates(c, s0, s, a);
    StepLosesNothing(c, s, Apply(c, s, a));
    StepInventsNothing(c, s0, s, Apply(c, s, a));
  }

  /** Over every run each committed success has been counted, and each count is explained
      by a committed success or by a row that was completed before the run. */
  lemma {:induction false} RunBalances(c: Config, s: State, actions: seq<Action>)
    requires Init(s)
    ensures Balanced(c, s, Run(c, s, actions))
    decreases |actions|
  {
    if actions != [] {
      var before, last := actions[..|actions| - 1], actions[|actions| - 1];
      RunBalances(c, s, before);
      InitEstablishes(c, s);
      RunKeeps(c, s, before);
      StepBalances(c, s, Run(c, s, before), last);
    }
  }

  function MessageIds(log: seq<Applied>): set<nat> { set k | 0 <= k < |log| :: log[k].messageId }

  lemma {:induction false} DistinctIdsCount(log: seq<Applied>)
    requires CountedOnce(log)
    ensures |MessageIds(log)| == |log|
  {
    if log != [] {
      var n := |log| - 1;
      DistinctIdsCount(log[..n]);
      assert MessageIds(log) == MessageIds(log[..n]) + {log[n].messageId};
      assert log[n].messageId !in MessageIds(log[..n]);
    }
  }

  /** Conservation: whatever is received, retried, recovered, reconciled and cleaned up, every committed success is counted,
      nothing is counted twice and no count lacks an explanation; the daily counts add up to the number of messages
      counted, and every summary row is the plain aggregate of its group. */
  lemma {:induction false} ProductionIsConserved(c: Config, s: State, actions: seq<Action>)
    requires Init(s)
    ensures var s' := Run(c, s, actions);
      && NothingLost(s') && NothingInvented(c, s, s') && CountedOnce(s'.books.log)
      && GrandCount(s'.books.tables.summaries) == |MessageIds(s'.books.log)|
      && Summarises(s'.books.tables.summaries, Entries(s'.books.log))
  {
    InitEstablishes(c, s);
    RunKeeps(c, s, actions);
    RunBalances(c, s, actions);
    var b := Run(c, s, actions).books;
    DistinctIdsCount(b.log);
    GrandTotal(Entries(b.log));
    RebuildSummarises(Entries(b.log));
  }

  /** A message that awaited no summary when the run began has been counted exactly if its success was committed. */
  lemma {:induction false} CountedExactlyWhenCommitted(c: Config, s: State, actions: seq<Action>, i: nat)
    requires Init(s) && !AwaitsSummary(s.books.tables, i)
    ensures Counted(Run(c, s, actions).books.log, i) <==> Run(c, s, actions).history.completions[i] > 0
  {
    var s' := Run(c, s, actions);
    RunBalances(c, s, actions);
    if Counted(s'.books.log, i) {
      var k :| 0 <= k < |s'.books.log| && s'.books.log[k].messageId == i;
      assert Explained(c, s, s', s'.books.log[k]);
    }
  }
}
