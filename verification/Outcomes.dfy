/** What each transaction does to the columns of the tables, and what decides it in the fields of payloads and responses. */
module Outcomes {
  import opened Wrappers
  import opened Clock
  import Counting
  import opened Selection
  import opened Strings
  import opened Responses
  import opened DailySummary
  import opened Store
  import opened System
  import opened Invariant
  import opened Preservation

  // ---------------------------------------------------------------------------------------------
  // Reception

  predicate SameMessage(a: Message, b: Message) { a.topic + a.rawPayload == b.topic + b.rawPayload }

  ghost predicate IsStored(messages: map<nat, Message>, m: Message) { exists i :: i in messages && SameMessage(messages[i], m) }

  lemma StoredIsFound(messages: map<nat, Message>, m: Message)
    ensures var found := FindIdentity(messages, m.Identity());
      && (found.Some? <==> IsStored(messages, m))
      && (found.Some? ==> found.value in messages && SameMessage(messages[found.value], m))
  {
  }

  lemma ReceiptIsFindOrInsert(s: State, m: Message)
    requires s.callback.Quiet? && FreshRow(m)
    ensures var found := FindIdentity(s.Messages(), m.Identity());
      OnReceive(s, m) == if found.Some? then s.(callback := Looking(found.value, m.topic + m.rawPayload))
                         else s.(books := s.books.(tables := Insert(s.books.tables, m)))
  {
  }

  /** The callback has turned to the stored row of message m. */
  predicate TurnsTo(s: State, s': State, m: Message) {
    && s' == s.(callback := s'.callback) && s'.callback.Looking?
    && s'.callback.id in s.Messages() && SameMessage(s.Messages()[s'.callback.id], m)
    && s'.callback.identity == m.topic + m.rawPayload
  }

  /** A message whose topic and payload are not stored yet becomes a row under the next id; otherwise the callback turns to the
      row that has them. */
  lemma ReceiveInColumns(s: State, m: Message)
    requires s.callback.Quiet? && FreshRow(m)
    ensures var s', t := OnReceive(s, m), s.books.tables;
      if IsStored(s.Messages(), m) then TurnsTo(s, s', m)
      else
        s' == s.(books := s.books.(tables := t.(messages := t.messages[t.nextMessage := m],
                                                nextMessage := t.nextMessage + 1)))
  {
    StoredIsFound(s.Messages(), m);
    ReceiptIsFindOrInsert(s, m);
  }

  // ---------------------------------------------------------------------------------------------
  // Claiming

  predicate MayBeClaimed(m: Message, maxRetries: int) { m.status == New || (m.status == Failed && m.retryCount < maxRetries) }

  function ClaimableBelow(messages: map<nat, Message>, maxRetries: int, i: nat): set<nat> {
    set j | j in messages && j < i && MayBeClaimed(messages[j], maxRetries)
  }

  lemma SelectedBelow(eligible: set<nat>, limit: nat, i: nat)
    requires i in eligible
    ensures i in FirstIds(eligible, limit) <==> |set j | j in eligible && j < i| < limit
  {
    var ids, below := FirstIds(eligible, limit), set j | j in eligible && j < i;
    AscendingCardinality(ids);
    if i in ids {
      assert below <= Elements(ids) - {i};
      Counting.SubsetCardinality(below, Elements(ids) - {i});
    } else {
      assert Elements(ids) <= below;
      Counting.SubsetCardinality(Elements(ids), below);
    }
  }

  /** A row is selected exactly if it is NEW, or FAILED with retries left, and fewer than batch_size such rows have smaller
      ids. */
  lemma SelectionInColumns(t: Tables, batchSize: int, maxRetries: int, i: nat)
    ensures i in ClaimSelection(t, batchSize, maxRetries)
            <==> i in t.messages && MayBeClaimed(t.messages[i], maxRetries)
                 && |ClaimableBelow(t.messages, maxRetries, i)| < batchSize
  {
    var eligible := ClaimableIds(t.messages, maxRetries);
    if batchSize > 0 && i in eligible {
      SelectedBelow(eligible, batchSize, i);
      assert (set j | j in eligible && j < i) == ClaimableBelow(t.messages, maxRetries, i);
    }
  }

  /** An idle worker makes the selected rows PROCESSING, stamps them with the time, and takes them in hand in id order. */
  lemma ClaimInColumns(c: Config, s: State, now: int)
    requires s.worker.Idle?
    ensures var s', ids := OnClaim(c, s, now), ClaimSelection(s.books.tables, c.batchSize, c.maxRetries);
      && Ascending(ids) && s'.worker == (if ids == [] then Idle else Working(ids))
      && s'.books == s.books.(tables := s.books.tables.(messages := s'.Messages()))
      && s'.Messages().Keys == s.Messages().Keys
      && (forall i :: i in s.Messages() ==>
            s'.Messages()[i] == if i in ids then s.Messages()[i].(status := Processing, lastAttemptAt := Some(now / 1_000_000))
                                else s.Messages()[i])
  {
  }

  // ---------------------------------------------------------------------------------------------
  // One record

  ghost predicate Submittable(m: Message) {
    exists kind, value :: kind in {"MN", "MP"} && Carries(m.payload, kind, value)
                          && |value| >= 3 && value[|value| - 3..] in {"T01", "T02", "T03"}
  }

  lemma SubmittableInFields(m: Message)
    ensures PayloadFromRecord(m.payload).Some? <==> Submittable(m)
  {
    if PayloadFromRecord(m.payload).Some? {
      var x := PayloadFromRecord(m.payload).value;
      SubmissionIsThePayload(m.payload, x.messageType, x.value);
    }
    if Submittable(m) {
      var kind, value :| kind in {"MN", "MP"} && Carries(m.payload, kind, value)
                         && |value| >= 3 && value[|value| - 3..] in {"T01", "T02", "T03"};
      SubmissionIsThePayload(m.payload, kind, value);
    }
  }

  /** A row after a failure: one more retry is charged, and a response is kept if there is one. */
  function FailedAs(m: Message, retries: nat, attemptAt: int, response: Option<Text>): Message {
    m.(status := Failed, retryCount := retries, lastAttemptAt := Some(attemptAt),
       odooResponse := if response.Some? then response else m.odooResponse)
  }

  ghost predicate OnlyRow(s: State, s': State, id: nat, row: Message) {
    s'.books == s.books.(tables := s.books.tables.(messages := s.Messages()[id := row]))
  }

  function Next(rest: seq<nat>): Worker { if rest == [] then Idle else Working(rest) }

  /** The next record of the batch is submitted, once, or fails when its payload is not a known type with a known table. */
  lemma BeginInColumns(s: State, id: nat, rest: seq<nat>, now: int)
    requires s.worker == Working([id] + rest) && id in s.Messages()
    ensures var s', m := OnBegin(s, now), s.Messages()[id];
      if Submittable(m) then
        s' == s.(worker := Submitting(id, now / 1_000_000, rest),
                 history := s.history.(submissions := s.history.submissions + multiset{id}))
      else
        && OnlyRow(s, s', id, FailedAs(m, m.retryCount + 1, now / 1_000_000, None))
        && s' == s.(books := s'.books, worker := Next(rest))
  {
    assert ([id] + rest)[0] == id && ([id] + rest)[1..] == rest;
    SubmittableInFields(s.Messages()[id]);
  }

  /** The outcomes after which a message is never submitted again. */
  ghost predicate Closing(outcome: Outcome) { outcome.TimedOut? || (outcome.Response? && MustNotBeRetried(outcome.value)) }

  /** Errors, and every other response that does not say success. */
  ghost predicate Retrying(outcome: Outcome) {
    outcome.Error? || (outcome.Response? && !Says(outcome.value, true) && !SaysNothingToCheck(outcome.value))
  }

  ghost predicate Succeeding(outcome: Outcome, ack: string) {
    outcome.Response? && Says(outcome.value, true) && CarriesAck(outcome.value, ack)
  }

  function TextOf(outcome: Outcome): Option<Text> { if outcome.Response? then Some(Dumped(outcome.value)) else None }

  lemma OutcomeIsOneOfThree(outcome: Outcome)
    ensures Closing(outcome) ==> !Retrying(outcome) && forall ack :: !Succeeding(outcome, ack)
    ensures Retrying(outcome) ==> forall ack :: !Succeeding(outcome, ack)
    ensures Closing(outcome) || Retrying(outcome) || exists ack :: Succeeding(outcome, ack)
  {
    if outcome.Response? && Says(outcome.value, true) && !MustNotBeRetried(outcome.value) {
      var ack :| CarriesAck(outcome.value, ack);
      assert Succeeding(outcome, ack);
    }
  }

  ghost function RetriesAfter(c: Config, m: Message, outcome: Outcome): nat {
    if Closing(outcome) && c.maxRetries > m.retryCount + 1 then c.maxRetries else m.retryCount + 1
  }

  /** A closing outcome uses up the retries; any other failure charges exactly one. */
  lemma FailureInColumns(c: Config, s: State, outcome: Outcome, now: int)
    requires s.worker.Submitting? && s.worker.id in s.Messages() && (Closing(outcome) || Retrying(outcome))
    ensures var s', id, m := OnFinish(c, s, outcome, now), s.worker.id, s.Messages()[s.worker.id];
      && OnlyRow(s, s', id, FailedAs(m, RetriesAfter(c, m, outcome), s.worker.startedAt, TextOf(outcome)))
      && s' == s.(books := s'.books, worker := Next(s.worker.rest),
                  history := s.history.(closed := s.history.closed + if Closing(outcome) then {id} else {}))
  {
    OutcomeIsOneOfThree(outcome);
    if outcome.Response? {
      VerdictIsWhatTheResponseSays(outcome.value);
    }
    assert s.history.closed + {} == s.history.closed;
  }

  /** A success completes the row with the response, the time and the ACK, and leaves the ACK to be sent. */
  lemma SuccessInColumns(c: Config, s: State, outcome: Outcome, ack: string, now: int)
    requires s.worker.Submitting? && s.worker.id in s.Messages() && Succeeding(outcome, ack)
    ensures var s', id, m := OnFinish(c, s, outcome, now), s.worker.id, s.Messages()[s.worker.id];
      && s'.Messages() == s.Messages()[id := m.(status := Completed, completedAt := Some(At(now / 1_000_000)),
                                                odooResponse := Some(Dumped(outcome.value)), ack := Some(ack))]
      && s'.worker == Acknowledging(id, ack, s.worker.rest) && s'.callback == s.callback
      && s'.history == s.history.(completions := s.history.completions + multiset{id},
                                  responses := s.history.responses[id := Dumped(outcome.value)])
  {
    VerdictIsWhatTheResponseSays(outcome.value);
  }

  /** What the commit of an outcome leaves of the row, and which ACK is to be sent. */
  ghost predicate Settles(c: Config, rows: map<nat, Message>, rows': map<nat, Message>, id: nat, startedAt: int,
                          outcome: Outcome, ack: Option<string>, now: int)
    requires id in rows
  {
    var m := rows[id];
    && (Closing(outcome) || Retrying(outcome) ==>
          && ack.None?
          && rows' == rows[id := FailedAs(m, RetriesAfter(c, m, outcome), startedAt, TextOf(outcome))])
    && (forall a :: Succeeding(outcome, a) ==>
          && ack == Some(a)
          && rows' == rows[id := m.(status := Completed, completedAt := Some(At(now / 1_000_000)),
                                    odooResponse := Some(Dumped(outcome.value)), ack := Some(a))])
  }

  function AckInHand(w: Worker): Option<string> { if w.Acknowledging? then Some(w.ack) else None }

  lemma FinishSettles(c: Config, s: State, outcome: Outcome, now: int)
    requires s.worker.Submitting? && s.worker.id in s.Messages()
    ensures var s' := OnFinish(c, s, outcome, now);
      Settles(c, s.Messages(), s'.Messages(), s.worker.id, s.worker.startedAt, outcome, AckInHand(s'.worker), now)
  {
    OutcomeIsOneOfThree(outcome);
    if Closing(outcome) || Retrying(outcome) {
      FailureInColumns(c, s, outcome, now);
    } else {
      forall a | Succeeding(outcome, a)
        ensures var s' := OnFinish(c, s, outcome, now);
          && AckInHand(s'.worker) == Some(a)
          && s'.Messages() == s.Messages()[s.worker.id := s.Messages()[s.worker.id].(
               status := Completed, completedAt := Some(At(now / 1_000_000)),
               odooResponse := Some(Dumped(outcome.value)), ack := Some(a))]
      {
        SuccessInColumns(c, s, outcome, a, now);
      }
    }
  }

  /** Then the ACK is sent, once, and the next record is due. */
  lemma AcknowledgeInColumns(s: State)
    requires s.worker.Acknowledging?
    ensures OnAcknowledge(s)
            == s.(worker := Next(s.worker.rest),
                  history := s.history.(acks := s.history.acks + multiset{(s.worker.id, s.worker.ack)}))
  {
  }

  /** A submission that succeeds is completed, counted and acknowledged once. */
  lemma SubmissionIsAcknowledged(c: Config, s: State, id: nat, rest: seq<nat>, at: int, value: Json, ack: string, now: int)
    requires QueueInv(c, s) && LedgerSound(s.books)
    requires s.worker == Submitting(id, at, rest) && id in s.Messages() && Says(value, true) && CarriesAck(value, ack)
    ensures var s' := OnAcknowledge(OnFinish(c, s, Response(value), now));
      && s'.history.submissions == s.history.submissions && s'.history.acks == s.history.acks + multiset{(id, ack)}
      && id in s'.Messages() && s'.Messages()[id].status == Completed && s'.Messages()[id].ack == Some(ack)
      && |s'.books.log| == |s.books.log| + 1 && s'.books.log[|s.books.log|].messageId == id
      && s'.worker == Next(rest)
  {
    SuccessInColumns(c, s, Response(value), ack, now);
    SuccessIsLogged(c, s, value, ack, now);
    AcknowledgeInColumns(OnFinish(c, s, Response(value), now));
  }

  /** And a record that can be submitted is submitted once before, after which the rest of the batch goes on. */
  lemma RecordIsAcknowledged(c: Config, s: State, id: nat, rest: seq<nat>, value: Json, ack: string, begun: int, done: int)
    requires Inv(c, s) && s.worker == Working([id] + rest) && id in s.Messages() && Submittable(s.Messages()[id])
    requires Says(value, true) && CarriesAck(value, ack)
    ensures var s' := OnAcknowledge(OnFinish(c, OnBegin(s, begun), Response(value), done));
      && s'.history.submissions == s.history.submissions + multiset{id}
      && s'.history.acks == s.history.acks + multiset{(id, ack)}
      && id in s'.Messages() && s'.Messages()[id].status == Completed && s'.Messages()[id].ack == Some(ack)
      && |s'.books.log| == |s.books.log| + 1 && s'.books.log[|s.books.log|].messageId == id
      && s'.worker == Next(rest)
  {
    BeginInColumns(s, id, rest, begun);
    BeginKeeps(c, s, begun);
    SubmissionIsAcknowledged(c, OnBegin(s, begun), id, rest, begun / 1_000_000, value, ack, done);
  }

  lemma SuccessIsLogged(c: Config, s: State, value: Json, ack: string, now: int)
    requires QueueInv(c, s) && LedgerSound(s.books) && s.worker.Submitting? && s.worker.id in s.Messages()
    requires Says(value, true) && CarriesAck(value, ack)
    ensures var log' := OnFinish(c, s, Response(value), now).books.log;
      |log'| == |s.books.log| + 1 && log'[|s.books.log|].messageId == s.worker.id
  {
    VerdictIsWhatTheResponseSays(value);
    CompleteKeepsQueue(c, s, value, ack, now);
    CompletingOpenRowKeepsLedger(s.books, s.worker.id,
                                 CompletedRow(s.Messages()[s.worker.id], Dumped(value), Clock.Stored(now), Some(ack)));
  }

  // ---------------------------------------------------------------------------------------------
  // Stops and the watchdog

  /** A crash loses what is in memory, and a stop between records the rest of the batch; no row changes. */
  lemma CrashInColumns(c: Config, s: State)
    ensures Apply(c, s, Crash) == s.(worker := Idle, callback := Quiet)
    ensures Apply(c, s, Abandon) == s.(worker := Idle)
  {
  }

  /** PROCESSING without a claim time, or claimed before the second that lies stale_timeout before now. */
  predicate Overdue(c: Config, m: Message, now: int) {
    m.status == Processing
    && (m.lastAttemptAt == None || m.lastAttemptAt.value < (now - c.staleTimeout * 1_000_000) / 1_000_000)
  }

  function OverdueIds(c: Config, messages: map<nat, Message>, now: int): set<nat> {
    set i | i in messages && Overdue(c, messages[i], now)
  }

  /** Every overdue row that is not excluded fails, one retry is charged, and no other row changes. */
  ghost predicate RecoversRows(c: Config, rows: map<nat, Message>, rows': map<nat, Message>, now: int, excluded: set<nat>) {
    && rows'.Keys == rows.Keys
    && forall i :: i in rows ==>
         rows'[i] == if Overdue(c, rows[i], now) && i !in excluded
                     then rows[i].(status := Failed, retryCount := rows[i].retryCount + 1,
                                   lastAttemptAt := Some(now / 1_000_000))
                     else rows[i]
  }

  lemma RecoveryInColumns(c: Config, t: Tables, now: int, excluded: set<nat>)
    ensures var t' := Recovered(t, StaleBefore(c, now), excluded, Clock.Stored(now));
      t' == t.(messages := t'.messages) && RecoversRows(c, t.messages, t'.messages, now, excluded)
    ensures (set i | i in t.messages && i !in excluded && Stale(t.messages[i], StaleBefore(c, now)))
            == OverdueIds(c, t.messages, now) - excluded
  {
  }

  /** That is all the watchdog does. */
  lemma WatchdogInColumns(c: Config, s: State, now: int, excluded: set<nat>)
    ensures var s' := Apply(c, s, Watchdog(now, excluded));
      && s' == s.(books := s.books.(tables := s.books.tables.(messages := s'.Messages())))
      && RecoversRows(c, s.Messages(), s'.Messages(), now, excluded)
  {
    RecoveryInColumns(c, s.books.tables, now, excluded);
  }
}
