/** What holds over every run of the bridge, in every interleaving, with crashes and recoveries. */
module Guarantees {
  import Selection
  import opened Wrappers
  import opened Clock
  import opened Strings
  import opened Responses
  import opened DailySummary
  import opened Totals
  import opened Store
  import opened System
  import opened Invariant
  import opened Preservation
  import Outcomes

  // ---------------------------------------------------------------------------------------------
  // Attempts

  /** No message is claimed, or handed to Odoo, more often than max_retries allows (and once in any case). */
  lemma {:induction false} AttemptsAreBounded(c: Config, s: State, actions: seq<Action>, id: nat)
    requires Init(s)
    ensures var h := Run(c, s, actions).history;
            h.submissions[id] <= h.claims[id] <= ClaimCap(c)
  {
    InitEstablishes(c, s);
    RunKeeps(c, s, actions);
  }

  // ---------------------------------------------------------------------------------------------
  // The status diagram

  /** The documented edges: claimed, failed or completed out of PROCESSING, or recovered by the watchdog. */
  ghost predicate Documented(c: Config, m: Message, m': Message) {
    && SameSource(m, m')
    && (Spared(m, m') || Taken(c, m, m') || (m.status.Processing? && (FailedAgain(m, m') || Done(m, m'))))
  }

  /** Everything one step can do to a row. Two edges are not documented: a FAILED row may be failed once more, or
      completed, when the watchdog recovered it out of the worker's hands. */
  ghost predicate Edge(c: Config, m: Message, m': Message) {
    || Documented(c, m, m')
    || (SameSource(m, m') && m.status.Failed? && (FailedAgain(m, m') || Done(m, m')))
  }

  ghost predicate Taken(c: Config, m: Message, m': Message) {
    && m.Claimable(c.maxRetries) && m'.status.Processing? && m'.retryCount == m.retryCount
    && m'.odooResponse == m.odooResponse && m'.completedAt == m.completedAt && m'.ack == m.ack
  }

  ghost predicate FailedAgain(m: Message, m': Message) {
    && m'.status.Failed? && m'.retryCount > m.retryCount
    && m'.completedAt == m.completedAt && m'.ack == m.ack
  }

  ghost predicate Done(m: Message, m': Message) {
    && m'.status.Completed? && m'.retryCount == m.retryCount
    && Replayable(m') && m'.completedAt.Some? && m'.ack == StoredAck(m'.odooResponse)
  }

  /** Rows appear as NEW under an id never used before, and vanish only once completed. */
  ghost predicate ComeAndGo(t: Tables, t': Tables) {
    && t'.nextMessage >= t.nextMessage
    && (forall i :: i in t.messages && i !in t'.messages ==> t.messages[i].status.Completed?)
    && (forall i :: i in t'.messages && i !in t.messages
                    ==> t.nextMessage <= i < t'.nextMessage && FreshRow(t'.messages[i]))
  }

  ghost predicate Edges(c: Config, t: Tables, t': Tables) {
    && ComeAndGo(t, t')
    && forall i :: i in t.messages && i in t'.messages ==> Edge(c, t.messages[i], t'.messages[i])
  }

  ghost predicate DocumentedEdges(c: Config, t: Tables, t': Tables) {
    && ComeAndGo(t, t')
    && forall i :: i in t.messages && i in t'.messages ==> Documented(c, t.messages[i], t'.messages[i])
  }

  /** No row has been recovered out of the worker's hands. */
  ghost predicate InHandProcessing(s: State) {
    forall i :: i in Owned(s.worker) ==> i in s.Messages() && s.Messages()[i].status.Processing?
  }

  lemma DocumentedIsEdge(c: Config, t: Tables, t': Tables)
    requires DocumentedEdges(c, t, t')
    ensures Edges(c, t, t')
  {
  }

  lemma SparedEdges(c: Config, t: Tables, t': Tables)
    requires RowsSpared(t, t')
    ensures DocumentedEdges(c, t, t')
  {
  }

  lemma UpdatedEdges(c: Config, t: Tables, t': Tables, id: nat)
    requires id in t.messages && id in t'.messages && t'.messages == t.messages[id := t'.messages[id]]
    requires t'.nextMessage == t.nextMessage && Edge(c, t.messages[id], t'.messages[id])
    ensures Edges(c, t, t')
    ensures t.messages[id].status.Processing? ==> DocumentedEdges(c, t, t')
  {
  }

  lemma ReceiveEdges(c: Config, s: State, m: Message)
    requires RowsDistinct(s.books.tables)
    ensures DocumentedEdges(c, s.books.tables, OnReceive(s, m).books.tables)
  {
  }

  lemma ClaimEdges(c: Config, s: State, now: int)
    ensures DocumentedEdges(c, s.books.tables, OnClaim(c, s, now).books.tables)
  {
    if s.worker.Idle? {
      ClaimTakes(c, s, now);
    }
  }

  lemma BeginEdges(c: Config, s: State, now: int)
    requires OwnedRowsOpen(s)
    ensures Edges(c, s.books.tables, OnBegin(s, now).books.tables)
    ensures InHandProcessing(s) ==> DocumentedEdges(c, s.books.tables, OnBegin(s, now).books.tables)
  {
    if s.worker.Working? && s.worker.rest != [] {
      assert s.worker.rest[0] in Owned(s.worker);
      UpdatedEdges(c, s.books.tables, OnBegin(s, now).books.tables, s.worker.rest[0]);
    }
  }

  lemma FailEdges(c: Config, s: State, response: Option<Text>, floor: Option<int>)
    requires OwnedRowsOpen(s) && s.worker.Submitting? && s.worker.id in s.Messages()
    ensures Edges(c, s.books.tables, Fail(s, response, floor).books.tables)
    ensures InHandProcessing(s) ==> DocumentedEdges(c, s.books.tables, Fail(s, response, floor).books.tables)
  {
    assert Owned(s.worker)[0] == s.worker.id;
    assert s.worker.id in Owned(s.worker);
    UpdatedEdges(c, s.books.tables, Fail(s, response, floor).books.tables, s.worker.id);
  }

  lemma CompleteEdges(c: Config, s: State, response: Json, ack: string, now: int)
    requires OwnedRowsOpen(s) && s.worker.Submitting? && s.worker.id in s.Messages()
    requires Judge(response) == Success(ack)
    ensures Edges(c, s.books.tables, Complete(c, s, response, ack, now).books.tables)
    ensures InHandProcessing(s) ==> DocumentedEdges(c, s.books.tables, Complete(c, s, response, ack, now).books.tables)
  {
    assert Owned(s.worker)[0] == s.worker.id;
    assert s.worker.id in Owned(s.worker);
    StoredAckIsExtractedAck(response);
    UpdatedEdges(c, s.books.tables, Complete(c, s, response, ack, now).books.tables, s.worker.id);
  }

  lemma FinishEdges(c: Config, s: State, outcome: Outcome, now: int)
    requires OwnedRowsOpen(s)
    ensures Edges(c, s.books.tables, OnFinish(c, s, outcome, now).books.tables)
    ensures InHandProcessing(s) ==> DocumentedEdges(c, s.books.tables, OnFinish(c, s, outcome, now).books.tables)
  {
    if s.worker.Submitting? {
      SubmittedIsOwned(s);
      match outcome
      case TimedOut => FailEdges(c, s, None, Some(c.maxRetries));
      case Error => FailEdges(c, s, None, None);
      case Response(value) =>
        match Judge(value)
        case Retryable => FailEdges(c, s, Some(Dumped(value)), None);
        case Final => FailEdges(c, s, Some(Dumped(value)), Some(c.maxRetries));
        case Success(ack) => CompleteEdges(c, s, value, ack, now);
    }
  }

  lemma WatchdogEdges(c: Config, s: State, now: int, excluded: set<nat>)
    ensures DocumentedEdges(c, s.books.tables, Apply(c, s, Watchdog(now, excluded)).books.tables)
  {
    RecoverySpares(s.books.tables, StaleBefore(c, now), excluded, Stored(now));
    SparedEdges(c, s.books.tables, Recovered(s.books.tables, StaleBefore(c, now), excluded, Stored(now)));
  }

  lemma RetentionEdges(c: Config, s: State, now: int)
    ensures DocumentedEdges(c, s.books.tables, CleanedUp(s.books.tables, now, c.retentionDays, c.cleanupBatch))
  {
    if c.cleanupBatch > 0 {
      DeletionSpares(s.books.tables, Cutoff(now, c.retentionDays), c.cleanupBatch);
    }
    SparedEdges(c, s.books.tables, CleanedUp(s.books.tables, now, c.retentionDays, c.cleanupBatch));
  }

  lemma ReconciliationEdges(c: Config, s: State)
    ensures DocumentedEdges(c, s.books.tables, Reconcile(s.books, c.reconcileLimit, c.machineId).tables)
  {
    if c.reconcileLimit > 0 {
      ReconcileRowsKeepMessages(s.books, Selection.FirstIds(AwaitingIds(s.books.tables), c.reconcileLimit), c.machineId);
    }
    SparedEdges(c, s.books.tables, Reconcile(s.books, c.reconcileLimit, c.machineId).tables);
  }

  lemma {:induction false} ReconcileRowsKeepMessages(b: Books, ids: seq<nat>, machineId: string)
    ensures ReconcileRows(b, ids, machineId).tables.messages == b.tables.messages
    ensures ReconcileRows(b, ids, machineId).tables.nextMessage == b.tables.nextMessage
  {
    if ids != [] {
      ReconcileRowsKeepMessages(b, ids[..|ids| - 1], machineId);
    }
  }

  /** Steps of the other actors, and claims, take documented edges only. */
  lemma OtherStepsAreDocumented(c: Config, s: State, a: Action)
    requires RowsDistinct(s.books.tables) && !a.Begin? && !a.Finish?
    ensures DocumentedEdges(c, s.books.tables, Apply(c, s, a).books.tables)
  {
    match a
    case Receive(m) => ReceiveEdges(c, s, m);
    case Claim(now) => ClaimEdges(c, s, now);
    case Throttle(now) => ThrottleSpares(s, now); SparedEdges(c, s.books.tables, OnThrottle(s, now).books.tables);
    case Watchdog(now, excluded) => WatchdogEdges(c, s, now, excluded);
    case Retention(now) => RetentionEdges(c, s, now);
    case Reconciliation => ReconciliationEdges(c, s);
    case _ => SparedEdges(c, s.books.tables, Apply(c, s, a).books.tables);
  }

  /** The corrected diagram: no step of any actor takes a row along any other edge, and the documented ones suffice as long
      as no row was recovered out of the worker's hands. */
  lemma EveryStepFollowsTheDiagram(c: Config, s: State, a: Action)
    requires RowsDistinct(s.books.tables) && OwnedRowsOpen(s)
    ensures Edges(c, s.books.tables, Apply(c, s, a).books.tables)
    ensures InHandProcessing(s) ==> DocumentedEdges(c, s.books.tables, Apply(c, s, a).books.tables)
  {
    match a
    case Begin(now) => BeginEdges(c, s, now);
    case Finish(outcome, now) => FinishEdges(c, s, outcome, now);
    case _ =>
      OtherStepsAreDocumented(c, s, a);
      DocumentedIsEdge(c, s.books.tables, Apply(c, s, a).books.tables);
  }

  // ---------------------------------------------------------------------------------------------
  // Completed messages

  /** id is gone for good, or its row still carries exactly what mark_completed wrote. */
  ghost predicate Settled(t: Tables, id: nat, row: Message) {
    && id < t.nextMessage
    && (id in t.messages ==> StillDone(t.messages[id], row))
  }

  predicate StillDone(m: Message, row: Message) {
    m.status.Completed? && m.odooResponse == row.odooResponse && m.completedAt == row.completedAt && m.ack == row.ack
  }

  lemma EdgesSettle(c: Config, t: Tables, t': Tables, id: nat, row: Message)
    requires Settled(t, id, row) && Edges(c, t, t')
    ensures Settled(t', id, row)
  {
  }

  lemma StepSettles(c: Config, s: State, a: Action, id: nat, row: Message)
    requires Inv(c, s) && Settled(s.books.tables, id, row)
    ensures Settled(Apply(c, s, a).books.tables, id, row)
  {
    EveryStepFollowsTheDiagram(c, s, a);
    EdgesSettle(c, s.books.tables, Apply(c, s, a).books.tables, id, row);
  }

  /** COMPLETED is absorbing until deletion, and a deleted id never comes back. */
  lemma {:induction false} CompletedIsAbsorbing(c: Config, s: State, actions: seq<Action>, id: nat, row: Message)
    requires Inv(c, s) && Settled(s.books.tables, id, row)
    ensures Settled(Run(c, s, actions).books.tables, id, row)
  {
    if actions != [] {
      var before := actions[..|actions| - 1];
      CompletedIsAbsorbing(c, s, before, id, row);
      RunKeeps(c, s, before);
      StepSettles(c, Run(c, s, before), actions[|actions| - 1], id, row);
    }
  }

  // ---------------------------------------------------------------------------------------------
  // Acknowledgements

  /** A run continues from where its first part stopped. */
  lemma {:induction false} RunSplits(c: Config, s: State, first: seq<Action>, second: seq<Action>)
    ensures Run(c, s, first + second) == Run(c, Run(c, s, first), second)
  {
    if second == [] {
      assert first + second == first;
    } else {
      RunSplits(c, s, first, second[..|second| - 1]);
      assert (first + second)[..|first + second| - 1] == first + second[..|second| - 1];
    }
  }

  /** An ACK is sent only for a message whose one success was committed before the step that sends it. */
  lemma AckFollowsCommit(c: Config, s: State, a: Action, id: nat, ack: string)
    requires AcksAnswer(s)
    requires (id, ack) in Apply(c, s, a).history.acks && (id, ack) !in s.history.acks
    ensures (a.Acknowledge? && s.worker == Acknowledging(id, ack, s.worker.rest))
            || (a.Replay? && s.callback == Sending(id, ack))
    ensures Answers(s.history, id, ack)
  {
  }

  /** Whether the worker sent it or a duplicate delivery replayed it, every ACK ever sent for a message is the
      ACK of its single committed response. */
  lemma {:induction false} AcksAreTheCommittedOnes(c: Config, s: State, actions: seq<Action>, id: nat, ack: string)
    requires Init(s)
    requires (id, ack) in Run(c, s, actions).history.acks
    ensures var h := Run(c, s, actions).history;
      && h.completions[id] <= 1
      && id in h.responses && StoredAck(Some(h.responses[id])) == Some(ack)
      && forall other :: (id, other) in h.acks ==> other == ack
  {
    InitEstablishes(c, s);
    RunKeeps(c, s, actions);
    var h := Run(c, s, actions).history;
    forall other | (id, other) in h.acks
      ensures other == ack
    {
      assert Answers(h, id, other) && Answers(h, id, ack);
    }
  }

  // ---------------------------------------------------------------------------------------------
  // Messages that must not be retried

  ghost predicate AtRest(c: Config, s: State, id: nat, claims: nat, submissions: nat) {
    && id in s.history.closed
    && s.history.claims[id] == claims && s.history.submissions[id] == submissions
  }

  lemma ClaimSparesClosed(c: Config, s: State, now: int, id: nat)
    requires ClosedRowsRest(c, s) && id in s.history.closed
    ensures OnClaim(c, s, now).history.claims[id] == s.history.claims[id]
  {
    if s.worker.Idle? {
      ClaimTakes(c, s, now);
    }
  }

  lemma BeginSparesClosed(c: Config, s: State, now: int, id: nat)
    requires ClosedRowsRest(c, s) && id in s.history.closed
    ensures OnBegin(s, now).history.submissions[id] == s.history.submissions[id]
    ensures OnBegin(s, now).history.claims == s.history.claims
    ensures OnBegin(s, now).history.closed == s.history.closed
  {
    if s.worker.Working? && s.worker.rest != [] {
      assert s.worker.rest[0] in Owned(s.worker);
    }
  }

  lemma StepLeavesAtRest(c: Config, s: State, a: Action, id: nat, claims: nat, submissions: nat)
    requires ClosedRowsRest(c, s) && AtRest(c, s, id, claims, submissions)
    ensures AtRest(c, Apply(c, s, a), id, claims, submissions)
  {
    match a
    case Claim(now) => ClaimSparesClosed(c, s, now, id);
    case Begin(now) => BeginSparesClosed(c, s, now, id);
    case _ =>
  }

  /** Once a timeout, a non-retryable business error or a missing ACK is committed, the message stays FAILED with
      its retries used up: it is never claimed or submitted again and no ACK is ever sent for it. */
  lemma {:induction false} ClosedForever(c: Config, s: State, actions: seq<Action>, id: nat)
    requires Inv(c, s) && id in s.history.closed
    ensures AtRest(c, Run(c, s, actions), id, s.history.claims[id], s.history.submissions[id])
    ensures var s' := Run(c, s, actions);
      && id in s'.Messages() && s'.Messages()[id].status.Failed? && s'.Messages()[id].retryCount >= c.maxRetries
      && forall ack :: (id, ack) !in s'.history.acks
  {
    RunKeeps(c, s, actions);
    if actions != [] {
      var before := actions[..|actions| - 1];
      ClosedForever(c, s, before, id);
      RunKeeps(c, s, before);
      StepLeavesAtRest(c, Run(c, s, before), actions[|actions| - 1], id, s.history.claims[id], s.history.submissions[id]);
    }
  }

  /** A restart with another max_retries reopens a closed message exactly if the new maximum exceeds its retry count, which
      is at least the old one. */
  lemma RaisedMaximumReopens(c: Config, s: State, id: nat, maxRetries: int)
    requires ClosedRowsRest(c, s) && id in s.history.closed
    ensures id in s.Messages() && (s.Messages()[id].Claimable(maxRetries) <==> maxRetries > s.Messages()[id].retryCount)
    ensures maxRetries <= c.maxRetries ==> !s.Messages()[id].Claimable(maxRetries)
  {
  }

  /** A timeout closes a message, a response that must not be retried does, and nothing else. */
  lemma FinishCloses(c: Config, s: State, outcome: Outcome, now: int)
    requires Inv(c, s) && s.worker.Submitting?
    ensures s.worker.id in OnFinish(c, s, outcome, now).history.closed <==> Outcomes.Closing(outcome)
  {
    assert Owned(s.worker)[0] == s.worker.id;
    assert s.worker.id in Owned(s.worker);
    if outcome.Response? {
      VerdictIsWhatTheResponseSays(outcome.value);
    }
  }

  // ---------------------------------------------------------------------------------------------
  // Messages that cannot be submitted

  /** The payload of message id does not validate, and it has been submitted and completed so often. */
  ghost predicate Unsubmittable(s: State, id: nat, submissions: nat, completions: nat) {
    && id < s.books.tables.nextMessage
    && (id in s.Messages() ==> PayloadFromRecord(s.Messages()[id].payload).None?)
    && (s.worker.Submitting? ==> s.worker.id != id)
    && s.history.submissions[id] == submissions && s.history.completions[id] == completions
  }

  lemma StepNeverSubmits(c: Config, s: State, a: Action, id: nat, submissions: nat, completions: nat)
    requires Inv(c, s) && Unsubmittable(s, id, submissions, completions)
    ensures Unsubmittable(Apply(c, s, a), id, submissions, completions)
  {
    PayloadStays(c, s, a, id);
    CountsStay(c, s, a, id);
  }

  lemma PayloadStays(c: Config, s: State, a: Action, id: nat)
    requires RowsDistinct(s.books.tables) && OwnedRowsOpen(s) && id < s.books.tables.nextMessage
    ensures id < Apply(c, s, a).books.tables.nextMessage
    ensures var s' := Apply(c, s, a);
      id in s'.Messages() ==> id in s.Messages() && s'.Messages()[id].payload == s.Messages()[id].payload
  {
    EveryStepFollowsTheDiagram(c, s, a);
    if id in Apply(c, s, a).Messages() {
      assert Edge(c, s.Messages()[id], Apply(c, s, a).Messages()[id]);
    }
  }

  lemma CountsStay(c: Config, s: State, a: Action, id: nat)
    requires id in s.Messages() ==> PayloadFromRecord(s.Messages()[id].payload).None?
    requires s.worker.Submitting? ==> s.worker.id != id
    ensures var s' := Apply(c, s, a);
      && (s'.worker.Submitting? ==> s'.worker.id != id)
      && s'.history.submissions[id] == s.history.submissions[id] && s'.history.completions[id] == s.history.completions[id]
  {
  }

  /** What validation rejects is never handed to Odoo, over any run; so a message that was accepted with trailing
      whitespace only ever uses up its retries. */
  lemma {:induction false} NeverSubmitted(c: Config, s: State, actions: seq<Action>, id: nat)
    requires Inv(c, s) && Unsubmittable(s, id, s.history.submissions[id], s.history.completions[id])
    ensures Unsubmittable(Run(c, s, actions), id, s.history.submissions[id], s.history.completions[id])
    decreases |actions|
  {
    if actions != [] {
      var before, last := actions[..|actions| - 1], actions[|actions| - 1];
      NeverSubmitted(c, s, before, id);
      RunKeeps(c, s, before);
      StepNeverSubmits(c, Run(c, s, before), last, id, s.history.submissions[id], s.history.completions[id]);
    }
  }

  /** The rows this applies to, among those the parser accepts: exactly the ones whose value ends in whitespace. */
  lemma TrailingWhitespaceIsUnsubmittable(m: Message)
    requires Genuine(m)
    ensures exists kind, value :: CarriesKnown(m.payload, kind, value)
              && (PayloadFromRecord(m.payload).None? <==> IsSpace(value[|value| - 1]))
  {
    QueuedMessageIsSubmittable(m.payload);
  }
}
