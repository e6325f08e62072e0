/** No message starves: how many claim calls can pass a NEW message by, and which rows the watchdog can reach. */
module Progress {
  import opened Wrappers
  import opened Clock
  import opened Selection
  import opened Responses
  import opened Store
  import opened System
  import opened Invariant
  import opened Preservation
  import opened Guarantees

  // ---------------------------------------------------------------------------------------------
  // Bounded overtaking

  predicate IsNew(s: State, r: nat) { r in s.Messages() && s.Messages()[r].status.New? }

  /** The claims still open to the rows with smaller ids than r. */
  function Budget(c: Config, s: State, r: nat): int {
    if r == 0 then 0
    else Budget(c, s, r - 1) + if r - 1 in s.Messages() then ClaimCap(c) - s.history.claims[r - 1] else 0
  }

  /** claim_pending_messages is really called: the worker is between batches. */
  predicate ClaimCall(s: State, a: Action) { a.Claim? && s.worker.Idle? }

  /** How many claim calls a run makes. */
  ghost function ClaimCalls(c: Config, s: State, actions: seq<Action>): nat {
    if actions == [] then 0
    else
      var before := actions[..|actions| - 1];
      ClaimCalls(c, s, before) + if ClaimCall(Run(c, s, before), actions[|actions| - 1]) then 1 else 0
  }

  lemma {:induction false} BudgetNeverRises(c: Config, s: State, s': State, r: nat)
    requires forall i :: i < r && i in s'.Messages() ==> i in s.Messages()
    requires forall i: nat :: s.history.claims[i] <= s'.history.claims[i]
    requires forall i: nat :: s.history.claims[i] <= ClaimCap(c)
    ensures Budget(c, s', r) <= Budget(c, s, r)
  {
    if r > 0 {
      BudgetNeverRises(c, s, s', r - 1);
    }
  }

  lemma {:induction false} BudgetIsNatural(c: Config, s: State, r: nat)
    requires forall i: nat :: s.history.claims[i] <= ClaimCap(c)
    ensures Budget(c, s, r) >= 0
  {
    if r > 0 {
      BudgetIsNatural(c, s, r - 1);
    }
  }

  function Below(ids: seq<nat>, r: nat): set<nat> { set i | i in ids && i < r }

  /** A claim spends one unit of the budget for each row taken below r. */
  lemma {:induction false} BudgetAfterTaking(c: Config, s: State, s': State, ids: seq<nat>, r: nat)
    requires s'.Messages().Keys == s.Messages().Keys
    requires forall i :: i in ids ==> i in s.Messages()
    requires forall i: nat :: s'.history.claims[i] == s.history.claims[i] + if i in ids then 1 else 0
    ensures Budget(c, s', r) == Budget(c, s, r) - |Below(ids, r)|
  {
    if r == 0 {
      assert Below(ids, 0) == {};
    } else {
      BudgetAfterTaking(c, s, s', ids, r - 1);
      if r - 1 in ids {
        assert Below(ids, r) == Below(ids, r - 1) + {r - 1};
      } else {
        assert Below(ids, r) == Below(ids, r - 1);
      }
    }
  }

  /** A claim call that misses a NEW row fills its whole batch with older rows. */
  lemma MissedClaimIsFull(c: Config, s: State, r: nat)
    requires c.batchSize > 0 && IsNew(s, r)
    requires r !in ClaimSelection(s.books.tables, c.batchSize, c.maxRetries)
    ensures |Below(ClaimSelection(s.books.tables, c.batchSize, c.maxRetries), r)| == c.batchSize
  {
    var ids := ClaimSelection(s.books.tables, c.batchSize, c.maxRetries);
    assert r in ClaimableIds(s.Messages(), c.maxRetries);
    assert Below(ids, r) == Elements(ids);
    AscendingCardinality(ids);
  }

  lemma ClaimSpendsBudget(c: Config, s: State, now: int, r: nat)
    requires c.batchSize > 0 && s.worker.Idle?
    requires IsNew(s, r) && IsNew(OnClaim(c, s, now), r)
    ensures Budget(c, OnClaim(c, s, now), r) == Budget(c, s, r) - c.batchSize
  {
    var ids := ClaimSelection(s.books.tables, c.batchSize, c.maxRetries);
    ClaimTakes(c, s, now);
    assert TakenRow(s.Messages()[r], OnClaim(c, s, now).Messages()[r], r in ids);
    MissedClaimIsFull(c, s, r);
    BudgetAfterTaking(c, s, OnClaim(c, s, now), ids, r);
  }

  lemma ClaimsOnlyGrow(c: Config, s: State, a: Action)
    ensures forall i: nat :: s.history.claims[i] <= Apply(c, s, a).history.claims[i]
  {
  }

  lemma StepSpendsBudget(c: Config, s: State, a: Action, r: nat)
    requires Inv(c, s) && c.batchSize > 0
    requires IsNew(s, r) && IsNew(Apply(c, s, a), r)
    ensures Budget(c, Apply(c, s, a), r) <= Budget(c, s, r) - if ClaimCall(s, a) then c.batchSize else 0
  {
    if ClaimCall(s, a) {
      ClaimSpendsBudget(c, s, a.now, r);
    } else {
      EveryStepFollowsTheDiagram(c, s, a);
      ClaimsOnlyGrow(c, s, a);
      BudgetNeverRises(c, s, Apply(c, s, a), r);
    }
  }

  lemma OnlyNewRowsStayNew(c: Config, t: Tables, t': Tables, r: nat)
    requires Edges(c, t, t') && r < t.nextMessage && r in t'.messages && t'.messages[r].status.New?
    ensures r in t.messages && t.messages[r].status.New?
  {
    assert r in t.messages;
    assert Edge(c, t.messages[r], t'.messages[r]);
  }

  /** A row that is NEW now has been NEW ever since it was received. */
  lemma StillNew(c: Config, s: State, a: Action, r: nat)
    requires Inv(c, s) && r < s.books.tables.nextMessage
    requires IsNew(Apply(c, s, a), r)
    ensures IsNew(s, r)
  {
    EveryStepFollowsTheDiagram(c, s, a);
    OnlyNewRowsStayNew(c, s.books.tables, Apply(c, s, a).books.tables, r);
  }

  /** calls claim calls, each worth a whole batch, have been paid for out of the budget. */
  ghost predicate Paid(c: Config, s0: State, s: State, r: nat, calls: nat) {
    calls * c.batchSize <= Budget(c, s0, r) - Budget(c, s, r)
  }

  lemma OneMoreClaim(calls: nat, k: nat, made: bool, b0: int, b1: int, b2: int)
    requires calls * k <= b0 - b1 && b2 <= b1 - if made then k else 0
    ensures (calls + if made then 1 else 0) * k <= b0 - b2
  {
    assert (calls + 1) * k == calls * k + k;
  }

  /** What a run keeps about r: if it is still NEW, every claim call made so far has been paid for. */
  ghost predicate Accounted(c: Config, s0: State, s: State, r: nat, calls: nat) {
    Inv(c, s) && r < s.books.tables.nextMessage && (IsNew(s, r) ==> Paid(c, s0, s, r, calls))
  }

  lemma StepPays(c: Config, s0: State, s: State, a: Action, r: nat, calls: nat)
    requires Inv(c, s) && c.batchSize > 0 && IsNew(s, r) && IsNew(Apply(c, s, a), r)
    requires Paid(c, s0, s, r, calls)
    ensures Paid(c, s0, Apply(c, s, a), r, calls + if ClaimCall(s, a) then 1 else 0)
  {
    StepSpendsBudget(c, s, a, r);
    OneMoreClaim(calls, c.batchSize, ClaimCall(s, a), Budget(c, s0, r), Budget(c, s, r), Budget(c, Apply(c, s, a), r));
  }

  lemma StepAccounts(c: Config, s0: State, s: State, a: Action, r: nat, calls: nat, calls': nat)
    requires c.batchSize > 0 && Accounted(c, s0, s, r, calls)
    requires calls' == calls + if ClaimCall(s, a) then 1 else 0
    ensures Accounted(c, s0, Apply(c, s, a), r, calls')
  {
    StepKeeps(c, s, a);
    EveryStepFollowsTheDiagram(c, s, a);
    if IsNew(Apply(c, s, a), r) {
      StillNew(c, s, a, r);
      StepPays(c, s0, s, a, r, calls);
    }
  }

  lemma {:induction false} RunAccounts(c: Config, s: State, actions: seq<Action>, r: nat)
    requires Inv(c, s) && c.batchSize > 0 && r < s.books.tables.nextMessage
    ensures Accounted(c, s, Run(c, s, actions), r, ClaimCalls(c, s, actions))
  {
    if actions != [] {
      var before := actions[..|actions| - 1];
      RunAccounts(c, s, before, r);
      StepAccounts(c, s, Run(c, s, before), actions[|actions| - 1], r,
                   ClaimCalls(c, s, before), ClaimCalls(c, s, actions));
    }
  }

  /** Bounded overtaking: as long as message r stays NEW, at most B / batch_size claim calls are made, where B is what
      the older rows may still claim. Later arrivals, failures, recoveries and crashes never raise the bound. */
  lemma {:induction false} NewMessageIsClaimedInTime(c: Config, s: State, actions: seq<Action>, r: nat)
    requires Inv(c, s) && c.batchSize > 0 && r < s.books.tables.nextMessage
    requires IsNew(Run(c, s, actions), r)
    ensures ClaimCalls(c, s, actions) * c.batchSize <= Budget(c, s, r)
  {
    RunAccounts(c, s, actions, r);
    BudgetIsNatural(c, Run(c, s, actions), r);
  }

  // ---------------------------------------------------------------------------------------------
  // The watchdog and the live batch

  /** Truncation never acts early: a row whose claim is not older than the stale timeout is never recovered,
      and one that is older by a second always is. */
  lemma RecoveryIsNeverEarly(c: Config, m: Message, claimedAt: int, now: int)
    requires m.status.Processing? && m.lastAttemptAt == Some(Stored(claimedAt))
    ensures Stale(m, StaleBefore(c, now)) ==> now - claimedAt > c.staleTimeout * SECOND
    ensures now - claimedAt >= (c.staleTimeout + 1) * SECOND ==> Stale(m, StaleBefore(c, now))
  {
  }

  /** A batch of size claimed at claimedAt is on time: whenever the watchdog looks, each record that is still waiting
      is so no longer than the records before it need at pace microseconds each. No new batch is claimed. */
  ghost predicate OnTime(c: Config, s: State, size: nat, claimedAt: int, pace: nat, actions: seq<Action>) {
    actions == [] ||
    (var before, last := actions[..|actions| - 1], actions[|actions| - 1];
     var s' := Run(c, s, before);
     && OnTime(c, s, size, claimedAt, pace, before)
     && StepOnTime(s', last, size, claimedAt, pace))
  }

  ghost predicate StepOnTime(s: State, a: Action, size: nat, claimedAt: int, pace: nat) {
    && !ClaimCall(s, a)
    && (a.Watchdog? && Waiting(s.worker) != [] ==> a.now <= claimedAt + (size - |Waiting(s.worker)|) * pace)
  }

  ghost predicate WaitingUntouched(s: State, size: nat, claimedAt: int) {
    && |Waiting(s.worker)| <= size
    && forall i :: i in Waiting(s.worker) ==>
         i in s.Messages() && s.Messages()[i].status.Processing? && s.Messages()[i].lastAttemptAt == Some(Stored(claimedAt))
  }

  lemma WatchdogSparesWaiting(c: Config, s: State, size: nat, claimedAt: int, pace: nat, now: int, excluded: set<nat>)
    requires WaitingUntouched(s, size, claimedAt)
    requires size >= 1 && (size - 1) * pace <= c.staleTimeout * SECOND
    requires Waiting(s.worker) != [] ==> now <= claimedAt + (size - |Waiting(s.worker)|) * pace
    ensures WaitingUntouched(Apply(c, s, Watchdog(now, excluded)), size, claimedAt)
  {
    if Waiting(s.worker) != [] {
      var n := |Waiting(s.worker)|;
      assert (size - n) * pace <= (size - 1) * pace;
      forall i | i in Waiting(s.worker)
        ensures !Stale(s.Messages()[i], StaleBefore(c, now))
      {
        RecoveryIsNeverEarly(c, s.Messages()[i], claimedAt, now);
      }
    }
  }

  /** The batch only shrinks, and what is left of it keeps its status and claim time. */
  ghost predicate SparesBatch(s: State, s': State) {
    && (forall i :: i in Waiting(s'.worker) ==> i in Waiting(s.worker)) && |Waiting(s'.worker)| <= |Waiting(s.worker)|
    && (forall i :: i in Owned(s'.worker) ==> i in Owned(s.worker)) && |Owned(s'.worker)| <= |Owned(s.worker)|
    && forall i :: i in Owned(s'.worker) && i in s.Messages() && s.Messages()[i].status.Processing? ==>
         && i in s'.Messages() && s'.Messages()[i].status.Processing?
         && s'.Messages()[i].lastAttemptAt == s.Messages()[i].lastAttemptAt
  }

  /** The worker's memory and the rows are as before, up to the columns that nobody in the batch depends on. */
  ghost predicate LeavesBatch(s: State, s': State) {
    && s'.worker == s.worker
    && forall i :: i in s.Messages() && s.Messages()[i].status.Processing? ==>
         && i in s'.Messages() && s'.Messages()[i].status.Processing?
         && s'.Messages()[i].lastAttemptAt == s.Messages()[i].lastAttemptAt
  }

  lemma LeavingSpares(s: State, s': State)
    requires LeavesBatch(s, s')
    ensures SparesBatch(s, s')
  {
  }

  lemma ReceiveLeavesBatch(s: State, m: Message)
    requires RowsDistinct(s.books.tables)
    ensures LeavesBatch(s, OnReceive(s, m))
  {
  }

  lemma ThrottleLeavesBatch(s: State, now: int)
    requires RowsDistinct(s.books.tables)
    ensures LeavesBatch(s, OnThrottle(s, now))
  {
  }

  lemma RetentionLeavesBatch(c: Config, s: State, now: int)
    ensures LeavesBatch(s, Apply(c, s, Retention(now)))
  {
    if c.cleanupBatch > 0 {
      DeletionSpares(s.books.tables, Cutoff(now, c.retentionDays), c.cleanupBatch);
    }
  }

  lemma ReconciliationLeavesBatch(c: Config, s: State)
    ensures LeavesBatch(s, Apply(c, s, Reconciliation))
  {
    if c.reconcileLimit > 0 {
      ReconcileRowsKeepMessages(s.books, FirstIds(AwaitingIds(s.books.tables), c.reconcileLimit), c.machineId);
    }
  }

  lemma BeginSparesBatch(s: State, now: int)
    requires OwnedRowsOpen(s)
    ensures SparesBatch(s, OnBegin(s, now))
  {
    if s.worker.Working? && s.worker.rest != [] {
      var rest := s.worker.rest;
      assert forall i :: i in rest[1..] ==> i in rest && i != rest[0];
    }
  }

  lemma FailSparesBatch(s: State, response: Option<Text>, floor: Option<int>)
    requires s.worker.Submitting? && s.worker.id in s.Messages() && s.worker.id !in s.worker.rest
    ensures SparesBatch(s, Fail(s, response, floor))
  {
  }

  lemma CompleteSparesBatch(c: Config, s: State, response: Json, ack: string, now: int)
    requires s.worker.Submitting? && s.worker.id in s.Messages() && s.worker.id !in s.worker.rest
    ensures SparesBatch(s, Complete(c, s, response, ack, now))
  {
  }

  lemma FinishSparesBatch(c: Config, s: State, outcome: Outcome, now: int)
    requires OwnedRowsOpen(s)
    ensures SparesBatch(s, OnFinish(c, s, outcome, now))
  {
    if s.worker.Submitting? {
      SubmittedIsOwned(s);
      match outcome
      case TimedOut => FailSparesBatch(s, None, Some(c.maxRetries));
      case Error => FailSparesBatch(s, None, None);
      case Response(value) =>
        match Judge(value)
        case Retryable => FailSparesBatch(s, Some(Dumped(value)), None);
        case Final => FailSparesBatch(s, Some(Dumped(value)), Some(c.maxRetries));
        case Success(ack) => CompleteSparesBatch(c, s, value, ack, now);
    }
  }

  /** No step but the watchdog's, and the claim of the next batch, touches a row of the worker's batch before its turn. */
  lemma StepSparesBatch(c: Config, s: State, a: Action)
    requires RowsDistinct(s.books.tables) && OwnedRowsOpen(s) && !a.Watchdog? && !ClaimCall(s, a)
    ensures SparesBatch(s, Apply(c, s, a))
  {
    match a
    case Begin(now) => BeginSparesBatch(s, now);
    case Finish(outcome, now) => FinishSparesBatch(c, s, outcome, now);
    case Receive(m) => ReceiveLeavesBatch(s, m); LeavingSpares(s, Apply(c, s, a));
    case Throttle(now) => ThrottleLeavesBatch(s, now); LeavingSpares(s, Apply(c, s, a));
    case Reconciliation => ReconciliationLeavesBatch(c, s); LeavingSpares(s, Apply(c, s, a));
    case Retention(now) => RetentionLeavesBatch(c, s, now); LeavingSpares(s, Apply(c, s, a));
    case _ =>
  }

  lemma StepLeavesWaiting(c: Config, s: State, a: Action, size: nat, claimedAt: int, pace: nat)
    requires Inv(c, s) && WaitingUntouched(s, size, claimedAt) && StepOnTime(s, a, size, claimedAt, pace)
    requires size >= 1 && (size - 1) * pace <= c.staleTimeout * SECOND
    ensures WaitingUntouched(Apply(c, s, a), size, claimedAt)
  {
    match a
    case Watchdog(now, excluded) => WatchdogSparesWaiting(c, s, size, claimedAt, pace, now, excluded);
    case _ => StepSparesBatch(c, s, a); SparedWaiting(s, Apply(c, s, a), size, claimedAt);
  }

  lemma SparedWaiting(s: State, s': State, size: nat, claimedAt: int)
    requires WaitingUntouched(s, size, claimedAt) && SparesBatch(s, s')
    ensures WaitingUntouched(s', size, claimedAt)
  {
    assert forall i :: i in Waiting(s'.worker) ==> i in Owned(s'.worker);
  }

  /** With (batch size - 1) times the per-record time within the stale timeout, the watchdog never recovers a waiting
      row of a live batch that is on time, whatever else happens and whichever rows it means to exclude. */
  lemma {:induction false} LiveBatchIsSpared(c: Config, s: State, size: nat, claimedAt: int, pace: nat, actions: seq<Action>)
    requires Inv(c, s) && WaitingUntouched(s, size, claimedAt)
    requires size >= 1 && (size - 1) * pace <= c.staleTimeout * SECOND
    requires OnTime(c, s, size, claimedAt, pace, actions)
    ensures WaitingUntouched(Run(c, s, actions), size, claimedAt)
  {
    if actions != [] {
      var before := actions[..|actions| - 1];
      LiveBatchIsSpared(c, s, size, claimedAt, pace, before);
      RunKeeps(c, s, before);
      StepLeavesWaiting(c, Run(c, s, before), actions[|actions| - 1], size, claimedAt, pace);
    }
  }

  /** A freshly claimed batch is one to which this applies. */
  lemma FreshBatchIsUntouched(c: Config, s: State, now: int)
    requires s.worker.Idle? && c.batchSize >= 0
    ensures WaitingUntouched(OnClaim(c, s, now), c.batchSize, now)
  {
    ClaimTakes(c, s, now);
  }
}
