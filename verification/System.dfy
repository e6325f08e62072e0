/** The whole bridge as one state machine: every database transaction is one step, and the worker, the
    watchdog, the MQTT callback, reconciliation, cleanup and the HTTP handler take theirs in any order. */
module System {
  import opened Wrappers
  import opened Clock
  import opened Responses
  import opened DailySummary
  import opened Store

  datatype Config = Config(
    batchSize: int, maxRetries: int, staleTimeout: int, machineId: string,
    reconcileLimit: int, retentionDays: nat, cleanupBatch: int)

  /** The worker thread. rest is the part of the claimed batch not begun yet; it lives in memory only. */
  datatype Worker =
    | Idle
    | Working(rest: seq<nat>)
    | Submitting(id: nat, startedAt: int, rest: seq<nat>)
    | Acknowledging(id: nat, ack: string, rest: seq<nat>)

  /** The MQTT thread handling a duplicate delivery. */
  datatype Callback =
    | Quiet
    | Looking(id: nat, identity: string)
    | Throttling(id: nat, identity: string, ack: string)
    | Sending(id: nat, ack: string)

  /** What has happened so far and no table remembers. */
  datatype History = History(
    claims: multiset<nat>,
    submissions: multiset<nat>,
    completions: multiset<nat>,      // how often mark_completed committed, by message id
    responses: map<nat, Text>,       // the committed successful response, by message id
    closed: set<nat>,                // messages with a committed outcome that must not be retried
    acks: multiset<(nat, string)>)   // ACKs handed to the MQTT publisher, with the message they answer

  datatype State = State(books: Books, worker: Worker, callback: Callback, history: History)
  {
    function Messages(): map<nat, Message> { books.tables.messages }
  }

  /** How a submission ended. A child killed at shutdown leaves no result and is an Error. */
  datatype Outcome = TimedOut | Error | Response(value: Json)

  datatype Action =
    | Receive(message: Message)                 // save_message
    | LookUp                                    // get_message_by_id / get_message_by_hash
    | Throttle(now: int)                        // record_ack_replay_attempt
    | Replay                                    // publish_ack from the callback
    | Claim(now: int)                           // claim_pending_messages
    | Begin(now: int)                           // payload_from_record and process.start
    | Finish(outcome: Outcome, now: int)        // mark_failed or mark_completed
    | Acknowledge                               // publish_ack from the worker
    | Abandon                                   // stop between records, or an exception after the claim
    | Crash                                     // the process dies and restarts
    | Watchdog(now: int, excluded: set<nat>)    // recover_stale_processing
    | Reconciliation                            // reconcile_completed_production_records
    | Retention(now: int)                       // cleanup_raw_operational_data
    | ApiWrite(commands: map<nat, Command>, nextCommand: nat)

  function Resume(rest: seq<nat>): Worker { if rest == [] then Idle else Working(rest) }

  function WithTables(s: State, t: Tables): State { s.(books := s.books.(tables := t)) }

  function OnReceive(s: State, m: Message): State {
    var found := FindIdentity(s.Messages(), m.Identity());
    if !s.callback.Quiet? || !FreshRow(m) then s
    else if found.Some? then s.(callback := Looking(found.value, m.Identity()))
    else WithTables(s, Insert(s.books.tables, m))
  }

  /** The first half of _handle_duplicate_message. */
  function OnLookUp(s: State): State {
    if !s.callback.Looking? then s
    else
      var id := if s.callback.id in s.Messages() then Some(s.callback.id)
                else FindIdentity(s.Messages(), s.callback.identity);
      if id.None? || !s.Messages()[id.value].status.Completed? then s.(callback := Quiet)
      else
        var m := s.Messages()[id.value];
        match StoredAck(m.odooResponse)
        case None => s.(callback := Quiet)
        case Some(ack) => s.(callback := Throttling(id.value, m.Identity(), ack))
  }

  /** The row may have been deleted meanwhile; record_ack_replay_attempt then raises. */
  function OnThrottle(s: State, now: int): State {
    if !s.callback.Throttling? then s
    else
      var found := FindIdentity(s.Messages(), s.callback.identity);
      if found.None? then s.(callback := Quiet)
      else
        var m := s.Messages()[found.value];
        if ReplayAttempt(m.replayCount, m.lastReplayAt, now).Allowed? then
          WithTables(s, Replayed(s.books.tables, found.value, now))
          .(callback := Sending(s.callback.id, s.callback.ack))
        else s.(callback := Quiet)
  }

  function OnReplay(s: State): State {
    if !s.callback.Sending? then s
    else s.(callback := Quiet,
            history := s.history.(acks := s.history.acks + multiset{(s.callback.id, s.callback.ack)}))
  }

  ghost function OnClaim(c: Config, s: State, now: int): State {
    if !s.worker.Idle? then s
    else
      var ids := ClaimSelection(s.books.tables, c.batchSize, c.maxRetries);
      WithTables(s, Claimed(s.books.tables, ids, Stored(now)))
      .(worker := Resume(ids), history := s.history.(claims := s.history.claims + multiset(ids)))
  }

  /** A payload that fails validation is a retryable failure without a submission. */
  function OnBegin(s: State, now: int): State {
    if !s.worker.Working? || s.worker.rest == [] then s
    else
      var id, rest := s.worker.rest[0], s.worker.rest[1..];
      if id !in s.Messages() then s.(worker := Idle)
      else if PayloadFromRecord(s.Messages()[id].payload).None? then
        WithTables(s, MarkFailed(s.books.tables, id, Stored(now), None, None)).(worker := Resume(rest))
      else
        s.(worker := Submitting(id, Stored(now), rest),
           history := s.history.(submissions := s.history.submissions + multiset{id}))
  }

  function Fail(s: State, response: Option<Text>, floor: Option<int>): State
    requires s.worker.Submitting? && s.worker.id in s.Messages()
  {
    var id := s.worker.id;
    WithTables(s, MarkFailed(s.books.tables, id, s.worker.startedAt, response, floor))
    .(worker := Resume(s.worker.rest),
      history := if floor.Some? then s.history.(closed := s.history.closed + {id}) else s.history)
  }

  function Complete(c: Config, s: State, response: Json, ack: string, now: int): State
    requires s.worker.Submitting? && s.worker.id in s.Messages()
  {
    var id := s.worker.id;
    s.(books := MarkCompleted(s.books, id, Dumped(response), Stored(now), Some(ack),
                              DashboardMetadata(response), c.machineId),
       worker := Acknowledging(id, ack, s.worker.rest),
       history := s.history.(completions := s.history.completions + multiset{id},
                             responses := s.history.responses[id := Dumped(response)]))
  }

  /** The rest of _process_record. */
  function OnFinish(c: Config, s: State, outcome: Outcome, now: int): State {
    if !s.worker.Submitting? then s
    else if s.worker.id !in s.Messages() then s.(worker := Idle)
    else
      match outcome
      case TimedOut => Fail(s, None, Some(c.maxRetries))
      case Error => Fail(s, None, None)
      case Response(value) =>
        match Judge(value)
        case Retryable => Fail(s, Some(Dumped(value)), None)
        case Final => Fail(s, Some(Dumped(value)), Some(c.maxRetries))
        case Success(ack) => Complete(c, s, value, ack, now)
  }

  function OnAcknowledge(s: State): State {
    if !s.worker.Acknowledging? then s
    else s.(worker := Resume(s.worker.rest),
            history := s.history.(acks := s.history.acks + multiset{(s.worker.id, s.worker.ack)}))
  }

  function StaleBefore(c: Config, now: int): int { Stored(now - c.staleTimeout * SECOND) }

  ghost function Apply(c: Config, s: State, a: Action): State {
    match a
    case Receive(m) => OnReceive(s, m)
    case LookUp => OnLookUp(s)
    case Throttle(now) => OnThrottle(s, now)
    case Replay => OnReplay(s)
    case Claim(now) => OnClaim(c, s, now)
    case Begin(now) => OnBegin(s, now)
    case Finish(outcome, now) => OnFinish(c, s, outcome, now)
    case Acknowledge => OnAcknowledge(s)
    case Abandon => s.(worker := Idle)
    case Crash => s.(worker := Idle, callback := Quiet)
    case Watchdog(now, excluded) =>
      WithTables(s, Recovered(s.books.tables, StaleBefore(c, now), excluded, Stored(now)))
    case Reconciliation => s.(books := Reconcile(s.books, c.reconcileLimit, c.machineId))
    case Retention(now) => WithTables(s, CleanedUp(s.books.tables, now, c.retentionDays, c.cleanupBatch))
    case ApiWrite(commands, next) =>
      WithTables(s, s.books.tables.(commands := commands, nextCommand := next))
  }

  lemma FinishIsOnFinish(c: Config, s: State, outcome: Outcome, now: int)
    ensures Apply(c, s, Finish(outcome, now)) == OnFinish(c, s, outcome, now)
  {
  }

  ghost function Run(c: Config, s: State, actions: seq<Action>): State
    decreases |actions|
  {
    if actions == [] then s
    else Apply(c, Run(c, s, actions[..|actions| - 1]), actions[|actions| - 1])
  }
}
