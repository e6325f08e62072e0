/** The running process as the object it is. Its worker, watchdog and MQTT callback work statement by statement on one
    database, and any other thread may act between two of their transactions. Each of their methods is proved to be a
    run of the state machine in System, so that everything proved of all runs holds of the code in this form. */
module Bridge {
  import opened Wrappers
  import opened Clock
  import opened Responses
  import opened Store
  import opened System
  import opened Invariant
  import opened Preservation
  import opened Strings
  import opened DailySummary
  import opened Totals
  import opened Guarantees
  import opened Accounting
  import opened Outcomes
  import opened Duplicates
  import opened Chronicles
  import BridgeDatabase

  /** The heartbeat that health reporting shows. */
  class WorkerState {
    var lastLoopAt: Option<int>
    var currentRecordId: Option<nat>
    var currentStartedAt: Option<int>
    var lastSuccessAt: Option<int>
    var lastFailureAt: Option<int>

    constructor ()
      ensures currentRecordId.None? && lastSuccessAt.None? && lastFailureAt.None?
    {
      lastLoopAt, currentRecordId, currentStartedAt, lastSuccessAt, lastFailureAt := None, None, None, None, None;
    }

    method BeginRecord(id: nat, now: int)
      modifies this
      ensures lastLoopAt == currentStartedAt == Some(now) && currentRecordId == Some(id)
      ensures lastSuccessAt == old(lastSuccessAt) && lastFailureAt == old(lastFailureAt)
    {
      lastLoopAt, currentRecordId, currentStartedAt := Some(now), Some(id), Some(now);
    }

    method FinishRecord(succeeded: bool, now: int)
      modifies this
      ensures lastLoopAt == Some(now) && currentRecordId.None? && currentStartedAt.None?
      ensures lastSuccessAt == if succeeded then Some(now) else old(lastSuccessAt)
      ensures lastFailureAt == if succeeded then old(lastFailureAt) else Some(now)
    {
      lastLoopAt := Some(now);
      if succeeded {
        lastSuccessAt := Some(now);
      } else {
        lastFailureAt := Some(now);
      }
      currentRecordId, currentStartedAt := None, None;
    }
  }

  class Process {
    const config: Config
    const submissionTimeout: int
    const db: BridgeDatabase.Database

    // OdooQueueWorker._active_submission_*, and the child that runs it
    var activeId: Option<nat>
    var activeStartedAt: int
    var childAlive: bool
    const state: WorkerState

    // Where each thread stands, what has happened, and the run that this amounts to
    ghost var worker: Worker
    ghost var callback: Callback
    ghost var history: History
    ghost var trace: seq<Action>
    ghost var work: seq<Action>          // the steps of it that the worker took
    ghost var handled: seq<Action>       // and those that the MQTT thread took
    ghost const origin: State

    ghost function View(): State
      reads this, db
    {
      State(db.Contents(), worker, callback, history)
    }

    ghost predicate Valid()
      reads this, db
    {
      && Chronicle(config, origin, trace, View(), work, handled)
      && (activeId.Some? ==> worker.Submitting? && worker.id == activeId.value)
    }

    /** A valid process satisfies the invariant of the state machine. */
    lemma ValidIsSound()
      requires Valid()
      ensures Inv(config, View())
    {
      ChronicleMeans(config, origin, trace, View(), work, handled);
      InitEstablishes(config, origin);
      RunKeeps(config, origin, trace);
    }

    lemma RowsAreDistinct()
      requires Valid()
      ensures RowsDistinct(db.Rows())
    {
      ValidIsSound();
    }

    /** What was proved of every run, read off the fields of the process. */
    lemma ProcessKeepsItsPromises()
      requires Valid()
      ensures forall id: nat :: history.completions[id] > 0 ==> Counted(db.log, id)
      ensures CountedOnce(db.log) && GrandCount(db.summaries) == |MessageIds(db.log)|
      ensures Summarises(db.summaries, Entries(db.log))
      ensures forall id :: history.submissions[id] <= history.claims[id] <= ClaimCap(config)
      ensures forall id, ack, other :: (id, ack) in history.acks && (id, other) in history.acks ==> ack == other
    {
      ChronicleMeans(config, origin, trace, View(), work, handled);
      ProductionIsConserved(config, origin, trace);
      forall id: nat
        ensures history.submissions[id] <= history.claims[id] <= ClaimCap(config)
      {
        AttemptsAreBounded(config, origin, trace, id);
      }
      forall id, ack, other | (id, ack) in history.acks && (id, other) in history.acks
        ensures ack == other
      {
        AcksAreTheCommittedOnes(config, origin, trace, id, ack);
      }
    }

    /** One more step has been taken, in memory and in the database. */
    lemma Step(before: State, earlier: seq<Action>, worked: seq<Action>, served: seq<Action>, a: Action)
      requires Chronicle(config, origin, earlier, before, worked, served)
      requires trace == earlier + [a] && View() == Apply(config, before, a)
      requires work == worked + (if WorkerStep(a) then [a] else [])
      requires handled == served + (if CallbackStep(a) then [a] else [])
      requires activeId.Some? ==> worker.Submitting? && worker.id == activeId.value
      ensures Valid()
    {
      ChronicleGrows(config, origin, earlier, before, worked, served, a);
    }

    /** Start-up; past holds the responses that the database already contains. */
    constructor (config: Config, submissionTimeout: int, db: BridgeDatabase.Database, ghost past: History)
      requires Init(State(db.Contents(), Idle, Quiet, past))
      ensures Valid() && this.db == db && this.config == config
      ensures worker.Idle? && callback.Quiet? && trace == work == handled == []
    {
      this.config, this.submissionTimeout, this.db := config, submissionTimeout, db;
      activeId, activeStartedAt, childAlive := None, 0, false;
      state := new WorkerState();
      worker, callback, history := Idle, Quiet, past;
      trace, work, handled := [], [], [];
      origin := State(db.Contents(), Idle, Quiet, past);
      new;
      ChronicleBegins(config, origin);
    }

    /** Time passes, in which the threads other than the worker take any number of steps. */
    method OthersAct()
      requires Valid()
      modifies this`callback, this`handled, this`history, this`trace, db
      ensures Valid()
    {
    }

    // -------------------------------------------------------------------------------------------
    // OdooQueueWorker

    method Claim(now: int) returns (records: seq<nat>)
      requires Valid() && worker.Idle?
      modifies this`worker, this`work, this`history, this`trace, db
      ensures Valid() && work == old(work) + [Action.Claim(now)]
      ensures worker == Resume(records) && records == ClaimSelection(old(db.Rows()), config.batchSize, config.maxRetries)
      ensures forall i :: i in records ==> i in db.messages && db.messages[i].status.Processing?
    {
      records := db.ClaimPendingMessages(config.batchSize, config.maxRetries, now);
      worker := Resume(records);
      history := history.(claims := history.claims + multiset(records));
      trace, work := trace + [Action.Claim(now)], work + [Action.Claim(now)];
      SelectionIsClaimable(old(db.Rows()), config.batchSize, config.maxRetries);
      Step(old(View()), old(trace), old(work), old(handled), Action.Claim(now));
    }

    lemma RecordInHandExists(id: nat, rest: seq<nat>)
      requires Valid() && (worker == Working([id] + rest) || (worker.Submitting? && worker.id == id && worker.rest == rest))
      ensures ([id] + rest)[0] == id && ([id] + rest)[1..] == rest && id in db.messages
    {
      ValidIsSound();
      assert Owned(worker)[0] == id;
      assert id in Owned(worker);
    }

    /** An invalid payload fails the record without a submission. */
    method RejectRecord(id: nat, ghost rest: seq<nat>, now: int)
      requires Valid() && worker == Working([id] + rest) && id in db.messages && !Submittable(db.messages[id])
      modifies this`worker, this`work, this`trace, db
      ensures Valid() && work == old(work) + [Begin(now)] && worker == Resume(rest)
    {
      RecordInHandExists(id, rest);
      SubmittableInFields(db.messages[id]);
      var found := db.MarkFailedRow(id, Stored(now), None, true, Some(config.maxRetries));
      worker := Resume(rest);
      trace, work := trace + [Begin(now)], work + [Begin(now)];
      Step(old(View()), old(trace), old(work), old(handled), Begin(now));
    }

    /** A valid one is handed to the child, whose time begins. */
    method StartChild(id: nat, ghost rest: seq<nat>, now: int)
      requires Valid() && worker == Working([id] + rest) && id in db.messages && Submittable(db.messages[id])
      modifies this`worker, this`work, this`history, this`trace, this`activeId, this`activeStartedAt, this`childAlive
      ensures Valid() && work == old(work) + [Begin(now)] && worker == Submitting(id, Stored(now), rest)
      ensures activeId == Some(id) && childAlive && activeStartedAt == now
    {
      RecordInHandExists(id, rest);
      SubmittableInFields(db.messages[id]);
      activeId, activeStartedAt, childAlive := Some(id), now, true;
      worker := Submitting(id, Stored(now), rest);
      history := history.(submissions := history.submissions + multiset{id});
      trace, work := trace + [Begin(now)], work + [Begin(now)];
      Step(old(View()), old(trace), old(work), old(handled), Begin(now));
    }

    /** None is the ValueError of an invalid payload. */
    method BeginRecord(id: nat, ghost rest: seq<nat>, now: int) returns (submission: Option<Submission>)
      requires Valid() && worker == Working([id] + rest)
      modifies this`worker, this`work, this`history, this`trace, this`activeId, this`activeStartedAt, this`childAlive, db
      ensures Valid() && work == old(work) + [Begin(now)]
      ensures worker == if submission.Some? then Submitting(id, Stored(now), rest) else Resume(rest)
      ensures if submission.None? then activeId == old(activeId)
              else activeId == Some(id) && childAlive && activeStartedAt == now
      ensures id in old(db.messages) && (submission.Some? <==> Submittable(old(db.messages)[id]))
      ensures submission.Some? ==>
        Carries(old(db.messages)[id].payload, submission.value.messageType, submission.value.value)
    {
      RecordInHandExists(id, rest);
      SubmittableInFields(db.messages[id]);
      submission := PayloadFromRecord(db.messages[id].payload);
      if submission.None? {
        RejectRecord(id, rest, now);
      } else {
        SubmissionIsThePayload(db.messages[id].payload, submission.value.messageType, submission.value.value);
        StartChild(id, rest, now);
      }
    }

    lemma FailStep(before: State, earlier: seq<Action>, worked: seq<Action>,
                   outcome: Outcome, response: Option<Text>, retryable: bool, now: int)
      requires Chronicle(config, origin, earlier, before, worked, handled)
      requires before.worker.Submitting? && before.worker.id in before.Messages() && StoredAs(outcome, response, retryable)
      requires View() == Fail(before, response, if retryable then None else Some(config.maxRetries))
      requires trace == earlier + [Finish(outcome, now)] && activeId.None?
      requires work == worked + [Finish(outcome, now)]
      ensures Valid()
    {
      FinishFails(config, before, outcome, response, retryable, now);
      Step(before, earlier, worked, handled, Finish(outcome, now));
    }

    lemma CompleteStep(before: State, earlier: seq<Action>, worked: seq<Action>, value: Json, ack: string, now: int)
      requires Chronicle(config, origin, earlier, before, worked, handled)
      requires before.worker.Submitting? && before.worker.id in before.Messages() && Judge(value) == Success(ack)
      requires db.Contents() == MarkCompleted(before.books, before.worker.id, Dumped(value), Stored(now), Some(ack),
                                              DashboardMetadata(value), config.machineId)
      requires worker == Acknowledging(before.worker.id, ack, before.worker.rest) && callback == before.callback
      requires history == Completed(before.history, before.worker.id, value)
      requires trace == earlier + [Finish(Response(value), now)] && activeId.None?
      requires work == worked + [Finish(Response(value), now)]
      ensures Valid()
    {
      FinishCompletes(config, before, value, ack, now);
      Step(before, earlier, worked, handled, Finish(Response(value), now));
    }

    static ghost function Completed(h: History, id: nat, value: Json): History {
      h.(completions := h.completions + multiset{id}, responses := h.responses[id := Dumped(value)])
    }

    method FailRecord(id: nat, startedAt: int, ghost rest: seq<nat>, outcome: Outcome,
                      response: Option<Text>, retryable: bool, now: int)
      requires Valid() && worker == Submitting(id, startedAt, rest) && activeId.None?
      requires id in db.messages && StoredAs(outcome, response, retryable)
      modifies this`worker, this`work, this`history, this`trace, db
      ensures Valid() && work == old(work) + [Finish(outcome, now)]
      ensures worker == Resume(rest) && db.messages == OnFinish(config, old(View()), outcome, now).Messages()
    {
      FinishFails(config, View(), outcome, response, retryable, now);
      var found := db.MarkFailedRow(id, startedAt, response, retryable, Some(config.maxRetries));
      worker := Resume(rest);
      if !retryable {
        history := history.(closed := history.closed + {id});
      }
      trace, work := trace + [Finish(outcome, now)], work + [Finish(outcome, now)];
      FailStep(old(View()), old(trace), old(work), outcome, response, retryable, now);
    }

    method CompleteRecord(id: nat, startedAt: int, ghost rest: seq<nat>, value: Json, ack: string, now: int)
      requires Valid() && worker == Submitting(id, startedAt, rest) && activeId.None?
      requires id in db.messages && Judge(value) == Success(ack)
      modifies this`worker, this`work, this`history, this`trace, db
      ensures Valid() && work == old(work) + [Finish(Response(value), now)]
      ensures worker == Acknowledging(id, ack, rest)
      ensures db.messages == OnFinish(config, old(View()), Response(value), now).Messages()
    {
      ghost var before, earlier, worked := View(), trace, work;
      var found := db.MarkCompletedRow(id, Dumped(value), Stored(now), Some(ack), DashboardMetadata(value), config.machineId);
      worker := Acknowledging(id, ack, rest);
      history := Completed(history, id, value);
      trace, work := trace + [Finish(Response(value), now)], work + [Finish(Response(value), now)];
      CompleteStep(before, earlier, worked, value, ack, now);
    }

    method PublishAck(id: nat, ack: string, ghost rest: seq<nat>)
      requires Valid() && worker == Acknowledging(id, ack, rest)
      modifies this`worker, this`work, this`history, this`trace
      ensures Valid() && work == old(work) + [Acknowledge] && worker == Resume(rest)
      ensures (id, ack) in history.acks
    {
      history := history.(acks := history.acks + multiset{(id, ack)});
      worker := Resume(rest);
      trace, work := trace + [Acknowledge], work + [Acknowledge];
      Step(old(View()), old(trace), old(work), old(handled), Acknowledge);
    }

    /** The branches of _process_record once the child is gone; the ACK of a committed success. */
    method FinishSubmission(id: nat, startedAt: int, ghost rest: seq<nat>, outcome: Outcome, now: int)
      returns (ack: Option<string>)
      requires Valid() && worker == Submitting(id, startedAt, rest) && activeId.None?
      modifies this`worker, this`work, this`history, this`trace, db
      ensures Valid() && work == old(work) + [Finish(outcome, now)]
      ensures ack.Some? <==> Succeeds(outcome)
      ensures worker == if ack.Some? then Acknowledging(id, ack.value, rest) else Resume(rest)
      ensures id in old(db.messages)
      ensures Settles(config, old(db.messages), db.messages, id, startedAt, outcome, ack, now)
    {
      RecordInHandExists(id, rest);
      FinishSettles(config, View(), outcome, now);
      ack := None;
      if outcome.TimedOut? {
        FailRecord(id, startedAt, rest, outcome, None, false, now);
      } else if outcome.Error? {
        FailRecord(id, startedAt, rest, outcome, None, true, now);
      } else {
        var error := BusinessError(outcome.value);
        ack := ExtractAck(outcome.value);
        if error.Some? {
          var retryable := !FinalText(error.value);
          ack := None;
          FailRecord(id, startedAt, rest, outcome, Some(Dumped(outcome.value)), retryable, now);
        } else if ack.None? {
          FailRecord(id, startedAt, rest, outcome, Some(Dumped(outcome.value)), false, now);
        } else {
          CompleteRecord(id, startedAt, rest, outcome.value, ack.value, now);
        }
      }
    }

    /** The ACK of a committed success is sent; no ACK stands for a failure, after which there is nothing to do. */
    method AcknowledgeIfAny(id: nat, ack: Option<string>, ghost rest: seq<nat>)
      requires Valid() && worker == (if ack.Some? then Acknowledging(id, ack.value, rest) else Resume(rest))
      requires activeId.None?
      modifies this`worker, this`work, this`callback, this`handled, this`history, this`trace, db
      ensures Valid() && worker == Resume(rest)
      ensures work == old(work) + if ack.Some? then [Acknowledge] else []
    {
      if ack.Some? {
        OthersAct();
        PublishAck(id, ack.value, rest);
      }
    }

    /** The child has gone: its outcome is committed, and a success is acknowledged, in two transactions. */
    method SettleSubmission(id: nat, startedAt: int, ghost rest: seq<nat>, outcome: Outcome, now: int)
      returns (succeeded: bool)
      requires Valid() && worker == Submitting(id, startedAt, rest)
      modifies this`worker, this`work, this`callback, this`handled, this`history, this`trace, this`activeId, this`childAlive, db
      ensures Valid() && worker == Resume(rest) && activeId.None?
      ensures succeeded <==> Succeeds(outcome)
      ensures work == old(work) + SettlingSteps(outcome, now)
    {
      activeId, childAlive := None, false;
      OthersAct();
      var ack := FinishSubmission(id, startedAt, rest, outcome, now);
      AcknowledgeIfAny(id, ack, rest);
      return ack.Some?;
    }

    /** A record's transactions, from its begin to the commit of its outcome and its ACK. */
    method AttemptRecord(id: nat, ghost rest: seq<nat>, startedAt: int, outcome: Outcome, finishedAt: int)
      returns (succeeded: bool, ghost turn: Turn)
      requires Valid() && worker == Working([id] + rest) && activeId.None?
      modifies this, db
      ensures Valid() && worker == Resume(rest) && activeId.None?
      ensures work == old(work) + ProcessingSteps(turn)
      ensures turn == Turn(turn.submitted, startedAt, outcome, finishedAt)
      ensures id in old(db.messages) && (turn.submitted <==> Submittable(old(db.messages)[id]))
      ensures succeeded <==> turn.submitted && Succeeds(outcome)
    {
      var submission := BeginRecord(id, rest, startedAt);
      turn := Turn(submission.Some?, startedAt, outcome, finishedAt);
      succeeded := false;
      if submission.Some? {
        OthersAct();
        succeeded := SettleSubmission(id, Stored(startedAt), rest, outcome, finishedAt);
      }
    }

    method ProcessRecord(id: nat, ghost rest: seq<nat>, startedAt: int, outcome: Outcome, finishedAt: int)
      returns (ghost turn: Turn)
      requires Valid() && worker == Working([id] + rest) && activeId.None?
      modifies this, state, db
      ensures Valid() && worker == Resume(rest) && activeId.None?
      ensures work == old(work) + ProcessingSteps(turn)
      ensures turn == Turn(turn.submitted, startedAt, outcome, finishedAt)
      ensures id in old(db.messages) && (turn.submitted <==> Submittable(old(db.messages)[id]))
      ensures state.currentRecordId.None? && state.lastLoopAt == Some(finishedAt)
      ensures if turn.submitted && Succeeds(outcome)
              then state.lastSuccessAt == Some(finishedAt) && state.lastFailureAt == old(state.lastFailureAt)
              else state.lastFailureAt == Some(finishedAt) && state.lastSuccessAt == old(state.lastSuccessAt)
    {
      state.BeginRecord(id, startedAt);
      var succeeded: bool;
      succeeded, turn := AttemptRecord(id, rest, startedAt, outcome, finishedAt);
      state.FinishRecord(succeeded, finishedAt);
    }

    /** The batch is dropped: its remaining rows stay PROCESSING until the watchdog finds them. */
    method Abandon()
      requires Valid() && activeId.None?
      modifies this`worker, this`work, this`trace
      ensures Valid() && worker.Idle? && work == old(work) + [Action.Abandon]
    {
      worker := Idle;
      trace, work := trace + [Action.Abandon], work + [Action.Abandon];
      Step(old(View()), old(trace), old(work), old(handled), Action.Abandon);
    }

    /** k records of the batch have been processed since the worker had taken the steps earlier. */
    ghost predicate Processed(claimed: seq<nat>, k: nat, turns: seq<Turn>, odoo: nat -> Outcome, earlier: seq<Action>)
      reads this, db
    {
      && Valid() && activeId.None? && k == |turns| <= |claimed| && worker == Resume(claimed[k..])
      && work == earlier + BatchSteps(turns) && Answered(claimed, turns, odoo)
    }

    /** The next record, after other threads have acted. */
    method ProcessNext(claimed: seq<nat>, k: nat, clock: nat -> int, odoo: nat -> Outcome,
                       ghost turns: seq<Turn>, ghost earlier: seq<Action>) returns (ghost turns': seq<Turn>)
      requires k < |claimed| && Processed(claimed, k, turns, odoo, earlier)
      modifies this, state, db
      ensures Processed(claimed, k + 1, turns', odoo, earlier)
    {
      assert claimed[k..] == [claimed[k]] + claimed[k + 1..];
      OthersAct();
      ghost var turn := ProcessRecord(claimed[k], claimed[k + 1..], clock(2 * k + 1), odoo(claimed[k]), clock(2 * k + 2));
      BatchGrows(turns, turn);
      turns' := turns + [turn];
    }

    /** The claimed records in turn, until the stop event is set while record number stopAfter is processed. clock(k) is
        the k-th clock reading, odoo(id) how a submission of record id ends. */
    method ProcessBatch(claimed: seq<nat>, clock: nat -> int, odoo: nat -> Outcome, stopAfter: nat)
      returns (processed: nat, ghost turns: seq<Turn>)
      requires Valid() && worker == Resume(claimed) && activeId.None?
      modifies this, state, db
      ensures processed == if stopAfter < |claimed| then stopAfter else |claimed|
      ensures Processed(claimed, processed, turns, odoo, old(work))
    {
      processed, turns := 0, [];
      assert claimed[0..] == claimed;
      while processed < |claimed| && processed != stopAfter
        invariant 0 <= processed <= |claimed| && processed <= stopAfter
        invariant Processed(claimed, processed, turns, odoo, old(work))
      {
        turns := ProcessNext(claimed, processed, clock, odoo, turns, old(work));
        processed := processed + 1;
      }
    }

    /** One worker round. */
    method RunOnce(authenticated: bool, clock: nat -> int, odoo: nat -> Outcome, stopAfter: nat)
      returns (processed: nat, ghost records: seq<nat>, ghost turns: seq<Turn>)
      requires Valid() && worker.Idle? && activeId.None?
      modifies this, state, db
      ensures Valid() && worker.Idle? && activeId.None?
      ensures !authenticated ==> processed == 0 && work == old(work)
      ensures authenticated ==>
        && records == ClaimSelection(old(db.Rows()), config.batchSize, config.maxRetries)
        && |turns| == processed == (if stopAfter < |records| then stopAfter else |records|)
        && work == old(work) + RoundSteps(clock(0), turns, processed < |records|) && Answered(records, turns, odoo)
    {
      processed, records, turns := 0, [], [];
      if authenticated {
        var claimed := Claim(clock(0));
        records := claimed;
        processed, turns := ProcessBatch(claimed, clock, odoo, stopAfter);
        if processed < |claimed| {
          Abandon();
        }
      }
    }

    // -------------------------------------------------------------------------------------------
    // The watchdog thread

    /** The child that submits record i is alive, and has not run longer than the submission timeout. */
    ghost predicate UnderSubmission(i: nat, now: int)
      reads this`activeId, this`activeStartedAt, this`childAlive
    {
      activeId == Some(i) && childAlive && now - activeStartedAt <= submissionTimeout * 1_000_000
    }

    /** The record under submission, while its child lives and is within its time. */
    function ProtectedIds(now: int): (ids: set<nat>)
      reads this`activeId, this`activeStartedAt, this`childAlive
      ensures forall i :: i in ids <==> UnderSubmission(i, now)
    {
      if activeId.None? || !childAlive || now - activeStartedAt > submissionTimeout * SECOND then {} else {activeId.value}
    }

    lemma WatchdogStep(before: State, earlier: seq<Action>, now: int, excluded: set<nat>)
      requires Chronicle(config, origin, earlier, before, work, handled)
      requires View() == WithTables(before, Recovered(before.books.tables, StaleBefore(config, now), excluded, Stored(now)))
      requires trace == earlier + [Watchdog(now, excluded)]
      requires activeId.Some? ==> worker.Submitting? && worker.id == activeId.value
      ensures Valid()
    {
      Step(before, earlier, work, handled, Watchdog(now, excluded));
    }

    method RecoverStaleProcessing(now: int) returns (recovered: nat)
      requires Valid()
      modifies this`trace, db
      ensures Valid() && trace == old(trace) + [Watchdog(now, ProtectedIds(now))]
      ensures recovered == |OverdueIds(config, old(db.messages), now) - ProtectedIds(now)|
      ensures RecoversRows(config, old(db.messages), db.messages, now, ProtectedIds(now))
    {
      var excluded := ProtectedIds(now);
      ghost var before, earlier := View(), trace;
      RecoveryInColumns(config, db.Rows(), now, excluded);
      recovered := db.ResetStaleProcessing(StaleBefore(config, now), excluded, now);
      trace := trace + [Watchdog(now, excluded)];
      WatchdogStep(before, earlier, now, excluded);
    }

    // -------------------------------------------------------------------------------------------
    // SQLite housekeeping

    method ReconcileOnce() returns (r: BridgeDatabase.ReconciliationResult)
      requires Valid()
      modifies this`trace, db
      ensures Valid() && trace == old(trace) + [Reconciliation]
      ensures r.scannedRows == r.recoveredRecords + r.skippedRows && r.recoveredRecords == r.recoveredSummaries
      ensures |db.log| == |old(db.log)| + r.recoveredSummaries
    {
      r := db.ReconcileCompletedProductionRecords(config.machineId, config.reconcileLimit);
      trace := trace + [Reconciliation];
      Step(old(View()), old(trace), old(work), old(handled), Reconciliation);
    }

    lemma RetentionStep(before: State, earlier: seq<Action>, now: int)
      requires Chronicle(config, origin, earlier, before, work, handled)
      requires db.Contents() == Books(CleanedUp(before.books.tables, now, config.retentionDays, config.cleanupBatch),
                                      before.books.log)
      requires worker == before.worker && callback == before.callback && history == before.history
      requires trace == earlier + [Retention(now)]
      requires activeId.Some? ==> worker.Submitting? && worker.id == activeId.value
      ensures Valid()
    {
      Step(before, earlier, work, handled, Retention(now));
    }

    method CleanUpOnce(now: int) returns (r: BridgeDatabase.CleanupResult)
      requires Valid()
      modifies this`trace, db
      ensures Valid() && trace == old(trace) + [Retention(now)]
      ensures r == BridgeDatabase.Report(old(db.Rows()), Cutoff(now, config.retentionDays),
                                         if config.cleanupBatch > 0 then config.cleanupBatch else 0)
    {
      var result := db.CleanupRawOperationalData(config.retentionDays, config.cleanupBatch, now);
      r := result.value;
      trace := trace + [Retention(now)];
      RetentionStep(old(View()), old(trace), now);
    }

    // -------------------------------------------------------------------------------------------
    // The MQTT thread

    /** Time passes, in which the threads other than the MQTT thread take any number of steps. */
    method OthersActMeanwhile()
      requires Valid()
      modifies this`worker, this`work, this`activeId, this`activeStartedAt, this`childAlive, this`history, this`trace, db
      ensures Valid()
    {
    }

    method StoreMessage(m: Message) returns (id: nat, inserted: bool)
      requires Valid() && callback.Quiet? && FreshRow(m)
      modifies this`callback, this`handled, this`trace, db
      ensures Valid() && handled == old(handled) + [Receive(m)]
      ensures callback == if inserted then Quiet else Looking(id, m.Identity())
      ensures inserted <==> !IsStored(old(db.messages), m)
      ensures inserted ==>
        db.messages == old(db.messages)[old(db.nextMessage) := m] && db.nextMessage == old(db.nextMessage) + 1
      ensures !inserted ==> forall i :: i in old(db.messages) && SameMessage(old(db.messages)[i], m) ==> i == id
    {
      RowsAreDistinct();
      StoredIsFound(db.messages, m);
      id, inserted := db.SaveMessage(m);
      callback := if inserted then Quiet else Looking(id, m.Identity());
      trace, handled := trace + [Receive(m)], handled + [Receive(m)];
      Step(old(View()), old(trace), old(work), old(handled), Receive(m));
    }

    /** The row a duplicate is answered from, its topic and payload, and its ACK. */
    method ReadStoredAck(id: nat, identity: string) returns (found: Option<(nat, string, string)>)
      ensures found == FoundAck(db.messages, id, identity)
    {
      found := None;
      var row := if id in db.messages then Some(id) else FindIdentity(db.messages, identity);
      if row.Some? && db.messages[row.value].status == Store.Completed {
        var m := db.messages[row.value];
        var ack := StoredAck(m.odooResponse);
        if ack.Some? {
          found := Some((row.value, m.Identity(), ack.value));
        }
      }
    }

    method FindStoredAck(id: nat, identity: string) returns (found: Option<(nat, string, string)>)
      requires Valid() && callback == Looking(id, identity)
      modifies this`callback, this`handled, this`trace
      ensures Valid() && handled == old(handled) + [LookUp]
      ensures callback == if found.Some? then Throttling(found.value.0, found.value.1, found.value.2) else Quiet
      ensures found.Some? ==>
        var (row, key, ack) := found.value;
        && AnswersFor(db.messages, id, identity, row) && AnsweredBy(db.messages[row], ack)
        && key == db.messages[row].topic + db.messages[row].rawPayload
      ensures found.None? ==>
        forall row, ack :: AnswersFor(db.messages, id, identity, row) ==> !AnsweredBy(db.messages[row], ack)
    {
      RowsAreDistinct();
      LookUpDecides(View(), id, identity);
      LookUpIsFoundAck(View(), id, identity);
      found := ReadStoredAck(id, identity);
      callback := if found.Some? then Throttling(found.value.0, found.value.1, found.value.2) else Quiet;
      trace, handled := trace + [LookUp], handled + [LookUp];
      LookUpStep(old(View()), old(trace), old(handled));
    }

    lemma LookUpStep(before: State, earlier: seq<Action>, served: seq<Action>)
      requires Chronicle(config, origin, earlier, before, work, served)
      requires View() == OnLookUp(before) && trace == earlier + [LookUp] && handled == served + [LookUp]
      requires activeId.Some? ==> worker.Submitting? && worker.id == activeId.value
      ensures Valid()
    {
      Step(before, earlier, work, served, LookUp);
    }

    method AskForReplay(id: nat, identity: string, ack: string, now: int) returns (allowed: bool)
      requires Valid() && callback == Throttling(id, identity, ack)
      modifies this`callback, this`handled, this`trace, db
      ensures Valid() && handled == old(handled) + [Throttle(now)]
      ensures callback == if allowed then Sending(id, ack) else Quiet
      ensures allowed <==> Replays(old(db.messages), identity, now)
    {
      RowsAreDistinct();
      ReplaysInColumns(db.Rows(), identity, now);
      var attempt := db.RecordAckReplayAttempt(identity, now);
      allowed := attempt.Some? && attempt.value.attempt.Allowed?;
      callback := if allowed then Sending(id, ack) else Quiet;
      trace, handled := trace + [Throttle(now)], handled + [Throttle(now)];
      Step(old(View()), old(trace), old(work), old(handled), Throttle(now));
    }

    method ReplayAck(id: nat, ack: string)
      requires Valid() && callback == Sending(id, ack)
      modifies this`callback, this`handled, this`history, this`trace
      ensures Valid() && handled == old(handled) + [Replay] && callback.Quiet?
      ensures (id, ack) in history.acks
    {
      history := history.(acks := history.acks + multiset{(id, ack)});
      callback := Quiet;
      trace, handled := trace + [Replay], handled + [Replay];
      Step(old(View()), old(trace), old(work), old(handled), Replay);
    }

    /** The ACK that was replayed, with the message it answers; asked are the rows when the throttle was asked. */
    method HandleDuplicateMessage(id: nat, identity: string, now: int)
      returns (sent: Option<(nat, string)>, ghost asked: map<nat, Message>)
      requires Valid() && callback == Looking(id, identity)
      modifies this, db
      ensures Valid() && callback.Quiet?
      ensures sent.Some? ==> sent.value in history.acks && handled == old(handled) + [LookUp, Throttle(now), Replay]
      ensures sent.None? ==> handled == old(handled) + [LookUp] || handled == old(handled) + [LookUp, Throttle(now)]
      ensures AnswersDuplicate(sent, id, identity, old(db.messages), asked, now)
    {
      RowsAreDistinct();
      ghost var looked := db.Rows();
      sent, asked := None, db.messages;
      var found := FindStoredAck(id, identity);
      if found.Some? {
        sent, asked := ReplayFound(found.value.0, found.value.1, found.value.2, now);
        AnswerIsDecided(looked, id, identity, found.value.0, found.value.2, asked, now, sent);
      }
    }

    /** The row of the ACK is known: ask its throttle, and replay the ACK if that grants it. */
    method ReplayFound(row: nat, identity: string, ack: string, now: int)
      returns (sent: Option<(nat, string)>, ghost asked: map<nat, Message>)
      requires Valid() && callback == Throttling(row, identity, ack)
      modifies this, db
      ensures Valid() && callback.Quiet?
      ensures sent == if Replays(asked, identity, now) then Some((row, ack)) else None
      ensures sent.Some? ==> sent.value in history.acks && handled == old(handled) + [Throttle(now), Replay]
      ensures sent.None? ==> handled == old(handled) + [Throttle(now)]
    {
      OthersActMeanwhile();
      asked := db.messages;
      sent := None;
      var allowed := AskForReplay(row, identity, ack, now);
      if allowed {
        OthersActMeanwhile();
        ReplayAck(row, ack);
        sent := Some((row, ack));
      }
    }

    /** The message was stored before: answer it, after other threads have acted. */
    method AnswerAgain(id: nat, identity: string, now: int)
      returns (sent: Option<(nat, string)>, ghost looked: map<nat, Message>, ghost asked: map<nat, Message>)
      requires Valid() && callback == Looking(id, identity)
      modifies this, db
      ensures Valid() && callback.Quiet? && (sent.Some? ==> sent.value in history.acks)
      ensures old(handled) + [LookUp] <= handled <= old(handled) + [LookUp, Throttle(now), Replay]
      ensures AnswersDuplicate(sent, id, identity, looked, asked, now)
    {
      OthersActMeanwhile();
      looked := db.messages;
      sent, asked := HandleDuplicateMessage(id, identity, now);
    }

    /** Any publication on the PLC topic; payload is what `json.loads` makes of the text, None if it is malformed. A
        rejected one changes nothing, a new one is queued, a duplicate is answered again if it has been answered. looked
        and asked are the rows at the look-up and when the throttle was asked. */
    method OnMessage(topic: string, rawPayload: string, payload: Option<Json>, now: int)
      returns (sent: Option<(nat, string)>, ghost looked: map<nat, Message>, ghost asked: map<nat, Message>)
      requires Valid() && callback.Quiet?
      modifies this, db
      ensures Valid() && callback.Quiet?
      ensures ParsePlcMessage(payload).None? ==> sent.None? && View() == old(View()) && trace == old(trace)
      ensures ParsePlcMessage(payload).Some? ==>
        var m := QueuedRow(topic, rawPayload, payload);
        if IsStored(old(db.messages), m) then
          && old(handled) + [Receive(m), LookUp] <= handled <= old(handled) + [Receive(m), LookUp, Throttle(now), Replay]
          && forall id :: id in old(db.messages) && SameMessage(old(db.messages)[id], m)
                          ==> AnswersDuplicate(sent, id, topic + rawPayload, looked, asked, now)
        else
          && sent.None? && handled == old(handled) + [Receive(m)]
          && db.messages == old(db.messages)[old(db.nextMessage) := m] && db.nextMessage == old(db.nextMessage) + 1
      ensures sent.Some? ==> sent.value in history.acks
    {
      sent, looked, asked := None, db.messages, db.messages;
      var parsed := ParsePlcMessage(payload);
      if parsed.None? {
        return;
      }
      var m := QueuedRow(topic, rawPayload, payload);
      var id, inserted := StoreMessage(m);
      if inserted {
        return;
      }
      sent, looked, asked := AnswerAgain(id, m.Identity(), now);
    }
  }

  /** The row of a message that was just received. */
  function QueuedRow(topic: string, rawPayload: string, payload: Option<Json>): (m: Message)
    requires ParsePlcMessage(payload).Some?
    ensures FreshRow(m) && m.topic == topic && m.rawPayload == rawPayload && m.payload == payload
  {
    var (kind, parts) := ParsePlcMessage(payload).value;
    Message(topic, rawPayload, payload, kind, parts.table, parts.model, parts.serial,
            New, 0, None, None, None, None, 0, None)
  }
}
