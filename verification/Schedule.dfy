/** When the documented status diagram suffices: the worker's pace against the watchdog's patience. */
module Schedule {
  import opened Wrappers
  import opened Clock
  import opened Selection
  import opened Strings
  import opened Responses
  import opened Store
  import opened System
  import opened Invariant
  import opened Preservation
  import opened Guarantees
  import opened Progress

  /** The batch claimed last: when, and how many records. */
  datatype Batch = Batch(at: int, size: nat)

  ghost function LastClaim(c: Config, s: State, actions: seq<Action>): Batch
    decreases |actions|
  {
    if actions == [] then Batch(0, 0)
    else
      var before, last := actions[..|actions| - 1], actions[|actions| - 1];
      BatchAfter(c, Run(c, s, before), last, LastClaim(c, s, before))
  }

  ghost function BatchAfter(c: Config, s: State, a: Action, batch: Batch): Batch {
    if ClaimCall(s, a) then Batch(a.now, |ClaimSelection(s.books.tables, c.batchSize, c.maxRetries)|) else batch
  }

  /** Record number j of a batch of n claimed at T is committed by T + j * pace: whenever the watchdog looks while k records
      of the batch are not committed yet, it is not later than T + (n - k + 1) * pace. */
  ghost predicate StepOnSchedule(s: State, a: Action, batch: Batch, pace: nat) {
    a.Watchdog? && Owned(s.worker) != [] ==> a.now <= batch.at + (batch.size - |Owned(s.worker)| + 1) * pace
  }

  ghost predicate OnSchedule(c: Config, s: State, pace: nat, actions: seq<Action>)
    decreases |actions|
  {
    actions == [] ||
    (var before, last := actions[..|actions| - 1], actions[|actions| - 1];
     OnSchedule(c, s, pace, before) && StepOnSchedule(Run(c, s, before), last, LastClaim(c, s, before), pace))
  }

  /** Every uncommitted record of the batch is still PROCESSING as it was claimed. */
  ghost predicate BatchUntouched(c: Config, s: State, batch: Batch) {
    Owned(s.worker) != [] ==>
      && |Owned(s.worker)| <= batch.size <= c.batchSize
      && forall i :: i in Owned(s.worker) ==>
           && i in s.Messages() && s.Messages()[i].status.Processing?
           && s.Messages()[i].lastAttemptAt == Some(Stored(batch.at))
  }

  lemma ClaimStartsBatch(c: Config, s: State, a: Action, batch: Batch)
    requires ClaimCall(s, a)
    ensures BatchUntouched(c, Apply(c, s, a), BatchAfter(c, s, a, batch))
  {
    ClaimTakes(c, s, a.now);
  }

  lemma SparedBatch(c: Config, s: State, s': State, batch: Batch)
    requires BatchUntouched(c, s, batch) && SparesBatch(s, s')
    ensures BatchUntouched(c, s', batch)
  {
    if Owned(s'.worker) != [] {
      assert Owned(s'.worker)[0] in Owned(s'.worker);
      assert Owned(s.worker) != [];
    }
  }

  /** The deadline of the record in turn is within that of the last one. */
  lemma DeadlineInReach(size: nat, owned: nat, limit: int, pace: nat)
    requires 1 <= owned <= size <= limit
    ensures (size - owned + 1) * pace <= limit * pace
  {
    assert (limit - (size - owned + 1)) * pace >= 0;
    assert limit * pace == (size - owned + 1) * pace + (limit - (size - owned + 1)) * pace;
  }

  lemma WatchdogLeavesBatch(c: Config, s: State, now: int, excluded: set<nat>, batch: Batch, pace: nat)
    requires BatchUntouched(c, s, batch) && c.batchSize * pace <= c.staleTimeout * SECOND
    requires StepOnSchedule(s, Watchdog(now, excluded), batch, pace)
    ensures BatchUntouched(c, Apply(c, s, Watchdog(now, excluded)), batch)
  {
    if Owned(s.worker) != [] {
      DeadlineInReach(batch.size, |Owned(s.worker)|, c.batchSize, pace);
      forall i | i in Owned(s.worker)
        ensures !Stale(s.Messages()[i], StaleBefore(c, now))
      {
        RecoveryIsNeverEarly(c, s.Messages()[i], batch.at, now);
      }
    }
  }

  lemma StepLeavesBatch(c: Config, s: State, a: Action, batch: Batch, pace: nat)
    requires Inv(c, s) && BatchUntouched(c, s, batch)
    requires c.batchSize <= 0 || c.batchSize * pace <= c.staleTimeout * SECOND
    requires StepOnSchedule(s, a, batch, pace)
    ensures BatchUntouched(c, Apply(c, s, a), BatchAfter(c, s, a, batch))
  {
    if ClaimCall(s, a) {
      ClaimStartsBatch(c, s, a, batch);
    } else if a.Watchdog? && c.batchSize > 0 {
      WatchdogLeavesBatch(c, s, a.now, a.excluded, batch, pace);
    } else if !a.Watchdog? {
      StepSparesBatch(c, s, a);
      SparedBatch(c, s, Apply(c, s, a), batch);
    }
  }

  lemma {:induction false} RunLeavesBatch(c: Config, s: State, pace: nat, actions: seq<Action>)
    requires Init(s) && OnSchedule(c, s, pace, actions)
    requires c.batchSize <= 0 || c.batchSize * pace <= c.staleTimeout * SECOND
    ensures BatchUntouched(c, Run(c, s, actions), LastClaim(c, s, actions))
    decreases |actions|
  {
    if actions != [] {
      var before, last := actions[..|actions| - 1], actions[|actions| - 1];
      RunLeavesBatch(c, s, pace, before);
      InitEstablishes(c, s);
      RunKeeps(c, s, before);
      StepLeavesBatch(c, Run(c, s, before), last, LastClaim(c, s, before), pace);
    }
  }

  lemma UntouchedIsInHand(c: Config, s: State, batch: Batch)
    requires BatchUntouched(c, s, batch)
    ensures InHandProcessing(s)
  {
  }

  /** A step of a run that keeps the pace stays on the documented edges. */
  lemma {:induction false} OnScheduleIsDocumented(c: Config, s: State, pace: nat, actions: seq<Action>, a: Action)
    requires Init(s) && OnSchedule(c, s, pace, actions)
    requires c.batchSize <= 0 || c.batchSize * pace <= c.staleTimeout * SECOND
    ensures DocumentedEdges(c, Run(c, s, actions).books.tables, Apply(c, Run(c, s, actions), a).books.tables)
  {
    var s' := Run(c, s, actions);
    InitEstablishes(c, s);
    RunKeeps(c, s, actions);
    RunLeavesBatch(c, s, pace, actions);
    UntouchedIsInHand(c, s', LastClaim(c, s, actions));
    EveryStepFollowsTheDiagram(c, s', a);
  }

  // ---------------------------------------------------------------------------------------------
  // A run that keeps the pace and leaves the documented edges

  const CLAIMED := 999_999

  /** Row i of n queued messages; all but the last have trailing whitespace and fail before submission. */
  function QueuedRow(i: nat, n: nat): Message {
    Message("plc", seq(i, _ => 'x'), Some(Obj(map["MN" := Str(if i + 1 == n then "M 1T01" else "M 1T01 ")])),
            "MN", "T01", "M", "1", New, 0, None, None, None, None, 0, None)
  }

  function Ids(k: nat, n: nat): (ids: seq<nat>)
    requires k <= n
    ensures |ids| == n - k && forall j :: 0 <= j < |ids| ==> ids[j] == k + j
  {
    seq(n - k, j requires 0 <= j < n - k => k + j)
  }

  function Queue(n: nat): State {
    State(Books(Tables(map i: nat | i < n :: QueuedRow(i, n), n, map[], 0, [], map[], 0), []), Idle, Quiet,
          History(multiset{}, multiset{}, multiset{}, map[], {}, multiset{}))
  }

  lemma QueueInit(n: nat)
    ensures Init(Queue(n))
  {
    assert forall i, j :: 0 <= i < n && 0 <= j < n && i != j
             ==> |QueuedRow(i, n).Identity()| != |QueuedRow(j, n).Identity()|;
  }

  function ClaimedRow(i: nat, n: nat): Message {
    QueuedRow(i, n).(status := Processing, lastAttemptAt := Some(Stored(CLAIMED)))
  }

  /** The first k records have been committed, the others are as they were claimed. */
  ghost predicate InTurn(s: State, k: nat, n: nat) {
    && k < n && s.worker == Working(Ids(k, n))
    && forall i: nat :: k <= i < n ==> i in s.Messages() && s.Messages()[i] == ClaimedRow(i, n)
  }

  lemma AllSelected(n: nat, maxRetries: int)
    ensures ClaimSelection(Queue(n).books.tables, n, maxRetries) == Ids(0, n)
  {
    var eligible := ClaimableIds(Queue(n).Messages(), maxRetries);
    AscendingCardinality(Ids(0, n));
    forall i: nat
      ensures i in eligible <==> i in Ids(0, n)
    {
      if i < n {
        assert Ids(0, n)[i] == i;
      }
    }
    assert eligible == Elements(Ids(0, n));
    if n > 0 {
      FirstAreUnique(eligible, n, Ids(0, n), FirstIds(eligible, n));
    }
  }

  lemma ClaimsWholeQueue(c: Config)
    requires c.batchSize >= 1
    ensures InTurn(OnClaim(c, Queue(c.batchSize), CLAIMED), 0, c.batchSize)
  {
    var n := c.batchSize;
    AllSelected(n, c.maxRetries);
    forall i: nat | i < n
      ensures i in Ids(0, n)
    {
      assert Ids(0, n)[i] == i;
    }
  }

  lemma RecordFails(s: State, k: nat, n: nat, now: int)
    requires InTurn(s, k, n) && k + 1 < n
    ensures InTurn(OnBegin(s, now), k + 1, n)
  {
    assert Ids(k, n)[0] == k && Ids(k, n)[1..] == Ids(k + 1, n);
    assert PayloadFromRecord(ClaimedRow(k, n).payload).None?;
  }

  /** Where a run that has kept the pace so far has come to. */
  ghost predicate Stands(c: Config, s0: State, pace: nat, actions: seq<Action>, s: State, batch: Batch) {
    Run(c, s0, actions) == s && OnSchedule(c, s0, pace, actions) && LastClaim(c, s0, actions) == batch
  }

  lemma {:induction false} Advance(c: Config, s0: State, pace: nat, actions: seq<Action>, s: State, batch: Batch, a: Action)
    requires Stands(c, s0, pace, actions, s, batch) && StepOnSchedule(s, a, batch, pace)
    ensures Stands(c, s0, pace, actions + [a], Apply(c, s, a), BatchAfter(c, s, a, batch))
  {
    assert (actions + [a])[..|actions|] == actions;
  }

  lemma AdvanceBegin(c: Config, s0: State, pace: nat, actions: seq<Action>, s: State, batch: Batch, now: int)
    requires Stands(c, s0, pace, actions, s, batch)
    ensures Stands(c, s0, pace, actions + [Begin(now)], OnBegin(s, now), batch)
  {
    Advance(c, s0, pace, actions, s, batch, Begin(now));
  }

  lemma StandsAtStart(c: Config, s: State, pace: nat)
    ensures Stands(c, s, pace, [], s, Batch(0, 0))
  {
  }

  lemma AfterClaim(c: Config, pace: nat)
    requires c.batchSize >= 1
    ensures Stands(c, Queue(c.batchSize), pace, [Claim(CLAIMED)], OnClaim(c, Queue(c.batchSize), CLAIMED),
                   Batch(CLAIMED, c.batchSize))
  {
    var s := Queue(c.batchSize);
    StandsAtStart(c, s, pace);
    AllSelected(c.batchSize, c.maxRetries);
    Advance(c, s, pace, [], s, Batch(0, 0), Claim(CLAIMED));
    assert [] + [Claim(CLAIMED)] == [Claim(CLAIMED)];
  }

  /** A run that keeps the pace has come to the turn of record k of a batch of n. */
  ghost predicate Reaches(c: Config, s0: State, pace: nat, actions: seq<Action>, k: nat, n: nat) {
    exists s :: Stands(c, s0, pace, actions, s, Batch(CLAIMED, n)) && InTurn(s, k, n)
  }

  lemma ReachesByBegin(c: Config, s0: State, pace: nat, actions: seq<Action>, k: nat, n: nat, now: int)
    returns (longer: seq<Action>)
    requires Reaches(c, s0, pace, actions, k, n) && k + 1 < n
    ensures Reaches(c, s0, pace, longer, k + 1, n)
  {
    longer := actions + [Begin(now)];
    var s :| Stands(c, s0, pace, actions, s, Batch(CLAIMED, n)) && InTurn(s, k, n);
    AdvanceBegin(c, s0, pace, actions, s, Batch(CLAIMED, n), now);
    RecordFails(s, k, n, now);
  }

  /** When record k is due if those before it took their full time. */
  function Due(k: nat, pace: nat): int { if k == 0 then CLAIMED else Due(k - 1, pace) + pace }

  lemma ReachesByClaim(c: Config, pace: nat)
    requires c.batchSize >= 1
    ensures Reaches(c, Queue(c.batchSize), pace, [Claim(CLAIMED)], 0, c.batchSize)
  {
    AfterClaim(c, pace);
    ClaimsWholeQueue(c);
  }

  /** The first k records failing, each in its time. */
  lemma {:induction false} AfterFailing(c: Config, s0: State, pace: nat, claim: seq<Action>, k: nat, n: nat)
    returns (actions: seq<Action>)
    requires k < n && Reaches(c, s0, pace, claim, 0, n)
    ensures Reaches(c, s0, pace, actions, k, n)
    decreases k
  {
    actions := claim;
    if k > 0 {
      var before := AfterFailing(c, s0, pace, claim, k - 1, n);
      actions := ReachesByBegin(c, s0, pace, before, k - 1, n, Due(k - 1, pace));
    }
  }

  /** The last record of the batch is under submission, although the watchdog has recovered its row. */
  ghost predicate RecoveredInHand(s: State, id: nat) {
    && s.worker.Submitting? && s.worker.id == id && s.worker.rest == [] && id in s.Messages()
    && s.Messages()[id].status.Failed? && s.Messages()[id].retryCount == 1 && s.Messages()[id].completedAt.None?
  }

  /** The watchdog looks when the last record is due, either before its submission begins or while it lasts. */
  function LastRecord(inHand: bool, due: int): seq<Action> {
    if inHand then [Begin(due), Watchdog(due, {})] else [Watchdog(due, {}), Begin(due)]
  }

  lemma LastRecordBegins(s: State, n: nat, now: int)
    requires s.worker.Working? && n >= 1 && s.worker.rest == [n - 1] && n - 1 in s.Messages()
    requires s.Messages()[n - 1].payload == QueuedRow(n - 1, n).payload
    ensures OnBegin(s, now).worker == Submitting(n - 1, Stored(now), []) && OnBegin(s, now).books == s.books
  {
    assert LastThree("M 1T01") == "T01";
  }

  lemma RecoveredLate(c: Config, s: State, id: nat, now: int)
    requires id in s.Messages() && s.Messages()[id].status.Processing?
    requires s.Messages()[id].lastAttemptAt == Some(Stored(CLAIMED))
    requires now - CLAIMED > c.staleTimeout * SECOND
    ensures var s' := Apply(c, s, Watchdog(now, {}));
      && s'.worker == s.worker && id in s'.Messages()
      && s'.Messages()[id] == s.Messages()[id].(status := Failed, retryCount := s.Messages()[id].retryCount + 1,
                                                lastAttemptAt := Some(Stored(now)))
  {
  }

  lemma LastRecordIsRecovered(c: Config, s: State, inHand: bool, due: int)
    requires c.batchSize >= 1 && InTurn(s, c.batchSize - 1, c.batchSize)
    requires due - CLAIMED > c.staleTimeout * SECOND
    ensures RecoveredInHand(Apply(c, Apply(c, s, LastRecord(inHand, due)[0]), LastRecord(inHand, due)[1]), c.batchSize - 1)
  {
    var n := c.batchSize;
    assert Ids(n - 1, n) == [n - 1];
    if inHand {
      LastRecordBegins(s, n, due);
      RecoveredLate(c, OnBegin(s, due), n - 1, due);
    } else {
      RecoveredLate(c, s, n - 1, due);
      LastRecordBegins(Apply(c, s, Watchdog(due, {})), n, due);
    }
  }

  lemma AdvanceWatchdog(c: Config, s0: State, pace: nat, actions: seq<Action>, s: State, batch: Batch, due: int)
    requires Stands(c, s0, pace, actions, s, batch)
    requires |Owned(s.worker)| == 1 && due == batch.at + batch.size * pace
    ensures Stands(c, s0, pace, actions + [Watchdog(due, {})], Apply(c, s, Watchdog(due, {})), batch)
  {
    Advance(c, s0, pace, actions, s, batch, Watchdog(due, {}));
  }

  lemma LastRecordOnSchedule(c: Config, s0: State, pace: nat, actions: seq<Action>, s: State, batch: Batch,
                             inHand: bool, due: int)
    requires Stands(c, s0, pace, actions, s, batch) && due == batch.at + batch.size * pace
    requires s.worker.Working? && |s.worker.rest| == 1
    requires OnBegin(s, due).worker == Submitting(s.worker.rest[0], Stored(due), [])
    ensures var last := LastRecord(inHand, due);
      Stands(c, s0, pace, actions + last, Apply(c, Apply(c, s, last[0]), last[1]), batch)
  {
    var last := LastRecord(inHand, due);
    assert actions + last == (actions + [last[0]]) + [last[1]];
    if inHand {
      AdvanceBegin(c, s0, pace, actions, s, batch, due);
      AdvanceWatchdog(c, s0, pace, actions + [last[0]], OnBegin(s, due), batch, due);
    } else {
      AdvanceWatchdog(c, s0, pace, actions, s, batch, due);
      AdvanceBegin(c, s0, pace, actions + [last[0]], Apply(c, s, last[0]), batch, due);
    }
  }

  lemma LateRunFrom(c: Config, s0: State, pace: nat, actions: seq<Action>, inHand: bool, due: int)
    requires c.batchSize >= 1 && due == CLAIMED + c.batchSize * pace && due - CLAIMED > c.staleTimeout * SECOND
    requires Reaches(c, s0, pace, actions, c.batchSize - 1, c.batchSize)
    ensures OnSchedule(c, s0, pace, actions + LastRecord(inHand, due))
    ensures RecoveredInHand(Run(c, s0, actions + LastRecord(inHand, due)), c.batchSize - 1)
  {
    var s :| Stands(c, s0, pace, actions, s, Batch(CLAIMED, c.batchSize)) && InTurn(s, c.batchSize - 1, c.batchSize);
    assert Ids(c.batchSize - 1, c.batchSize) == [c.batchSize - 1];
    LastRecordBegins(s, c.batchSize, due);
    LastRecordOnSchedule(c, s0, pace, actions, s, Batch(CLAIMED, c.batchSize), inHand, due);
    LastRecordIsRecovered(c, s, inHand, due);
  }

  /** Every record keeps the pace, and still the last row is recovered out of the worker's hands. */
  lemma {:induction false} LateRunRecovers(c: Config, pace: nat, inHand: bool) returns (s: State, actions: seq<Action>)
    requires c.batchSize >= 1 && c.batchSize * pace > c.staleTimeout * SECOND
    ensures Init(s) && OnSchedule(c, s, pace, actions) && RecoveredInHand(Run(c, s, actions), c.batchSize - 1)
    ensures |actions| >= 2 && actions[|actions| - 2..] == LastRecord(inHand, CLAIMED + c.batchSize * pace)
  {
    s := Queue(c.batchSize);
    QueueInit(c.batchSize);
    ReachesByClaim(c, pace);
    var prefix := AfterFailing(c, s, pace, [Claim(CLAIMED)], c.batchSize - 1, c.batchSize);
    LateRunFrom(c, s, pace, prefix, inHand, CLAIMED + c.batchSize * pace);
    actions := prefix + LastRecord(inHand, CLAIMED + c.batchSize * pace);
  }

  /** The step from s to s' takes row id along an undocumented edge: failed again, and charged twice for one attempt, or
      completed although FAILED. */
  ghost predicate LeavesDiagram(c: Config, s: State, s': State, id: nat, outcome: Outcome) {
    && id in s.Messages() && s.Messages()[id].status.Failed? && s.Messages()[id].retryCount == 1
    && id in s'.Messages() && !Documented(c, s.Messages()[id], s'.Messages()[id])
    && (outcome.Error? ==> s'.Messages()[id].status.Failed? && s'.Messages()[id].retryCount == 2)
    && (outcome.Response? ==> s'.Messages()[id].status.Completed?)
  }

  predicate FailsOrSucceeds(outcome: Outcome) { outcome.Error? || (outcome.Response? && Judge(outcome.value).Success?) }

  lemma FailureLeavesDiagram(c: Config, s: State, id: nat)
    requires RecoveredInHand(s, id)
    ensures LeavesDiagram(c, s, Fail(s, None, None), id, Error)
  {
  }

  lemma SuccessLeavesDiagram(c: Config, s: State, id: nat, response: Json, ack: string, now: int)
    requires RecoveredInHand(s, id) && Judge(response) == Success(ack)
    ensures LeavesDiagram(c, s, Complete(c, s, response, ack, now), id, Response(response))
  {
  }

  lemma SettlingLeavesDiagram(c: Config, s: State, id: nat, outcome: Outcome, now: int)
    requires RecoveredInHand(s, id) && FailsOrSucceeds(outcome)
    ensures LeavesDiagram(c, s, OnFinish(c, s, outcome, now), id, outcome)
  {
    if outcome.Error? {
      FailureLeavesDiagram(c, s, id);
    } else {
      SuccessLeavesDiagram(c, s, id, outcome.value, Judge(outcome.value).ack, now);
    }
  }

  lemma FinishLeavesDiagram(c: Config, s: State, id: nat, outcome: Outcome, now: int)
    requires RecoveredInHand(s, id) && FailsOrSucceeds(outcome)
    ensures LeavesDiagram(c, s, Apply(c, s, Finish(outcome, now)), id, outcome)
  {
    FinishIsOnFinish(c, s, outcome, now);
    SettlingLeavesDiagram(c, s, id, outcome, now);
  }

  /** A run from start-up that keeps the pace takes an undocumented edge next. */
  ghost predicate TakesUndocumented(c: Config, s: State, pace: nat, actions: seq<Action>, id: nat, outcome: Outcome, now: int) {
    && Init(s) && OnSchedule(c, s, pace, actions)
    && LeavesDiagram(c, Run(c, s, actions), Apply(c, Run(c, s, actions), Finish(outcome, now)), id, outcome)
  }

  lemma FinishTakesUndocumented(c: Config, s: State, pace: nat, actions: seq<Action>, id: nat, outcome: Outcome, now: int)
    requires Init(s) && OnSchedule(c, s, pace, actions)
    requires RecoveredInHand(Run(c, s, actions), id) && FailsOrSucceeds(outcome)
    ensures TakesUndocumented(c, s, pace, actions, id, outcome, now)
  {
    FinishLeavesDiagram(c, Run(c, s, actions), id, outcome, now);
  }

  /** From start-up, with every record on time, a row goes from FAILED to FAILED, charged twice for one attempt, or from
      FAILED to COMPLETED. The watchdog recovered it while it waited in the batch, or while its submission lasted. */
  lemma {:induction false} UndocumentedEdges(c: Config, pace: nat, inHand: bool, outcome: Outcome, now: int)
    returns (s: State, actions: seq<Action>)
    requires c.batchSize >= 1 && c.batchSize * pace > c.staleTimeout * SECOND && FailsOrSucceeds(outcome)
    ensures TakesUndocumented(c, s, pace, actions, c.batchSize - 1, outcome, now)
    ensures |actions| >= 2 && actions[|actions| - 2..] == LastRecord(inHand, CLAIMED + c.batchSize * pace)
  {
    s, actions := LateRunRecovers(c, pace, inHand);
    FinishTakesUndocumented(c, s, pace, actions, c.batchSize - 1, outcome, now);
  }

  ghost predicate StepDocumented(c: Config, s: State, actions: seq<Action>, a: Action) {
    DocumentedEdges(c, Run(c, s, actions).books.tables, Apply(c, Run(c, s, actions), a).books.tables)
  }

  lemma {:induction false} LateStep(c: Config, pace: nat) returns (s: State, actions: seq<Action>, a: Action)
    requires c.batchSize >= 1 && c.batchSize * pace > c.staleTimeout * SECOND
    ensures Init(s) && OnSchedule(c, s, pace, actions) && !StepDocumented(c, s, actions, a)
  {
    a := Finish(Error, CLAIMED + c.batchSize * pace);
    s, actions := UndocumentedEdges(c, pace, true, Error, CLAIMED + c.batchSize * pace);
  }

  /** Exactly when the documented diagram suffices for workers that commit each record within pace of the one before it: when
      a whole batch at that pace fits into the stale timeout. With 10 records, 90 s and 300 s it does not. */
  lemma {:induction false} DocumentedDiagramSuffices(c: Config, pace: nat)
    ensures (forall s, actions, a :: Init(s) && OnSchedule(c, s, pace, actions) ==> StepDocumented(c, s, actions, a))
            <==> c.batchSize <= 0 || c.batchSize * pace <= c.staleTimeout * SECOND
  {
    if c.batchSize <= 0 || c.batchSize * pace <= c.staleTimeout * SECOND {
      forall s, actions, a | Init(s) && OnSchedule(c, s, pace, actions)
        ensures StepDocumented(c, s, actions, a)
      {
        OnScheduleIsDocumented(c, s, pace, actions, a);
      }
    } else {
      var s, actions, a := LateStep(c, pace);
    }
  }
}
