/** The SQLite tables as values, and what each transaction of `app/database.py` does to them. */
module Store {
  import opened Wrappers
  import opened Clock
  import opened Selection
  import opened Responses
  import opened DailySummary
  import MessageParser

  datatype Status = New | Processing | Completed | Failed

  /** A completed_at text: one the bridge wrote, or one that `datetime.fromisoformat` rejects. */
  datatype Stamp = At(seconds: int) | Unreadable

  /** A row of mqtt_messages. payload is what `json.loads` makes of rawPayload. */
  datatype Message = Message(
    topic: string, rawPayload: string, payload: Option<Json>,
    messageType: string, tableNo: string, model: string, serial: string,
    status: Status, retryCount: nat, lastAttemptAt: Option<int>,
    completedAt: Option<Stamp>, odooResponse: Option<Text>, ack: Option<string>,
    replayCount: nat, lastReplayAt: Option<int>)
  {
    /** What message_hash digests. */
    function Identity(): string { topic + rawPayload }

    predicate Claimable(maxRetries: int) { status.New? || (status.Failed? && retryCount < maxRetries) }
  }

  /** A row of production_records, keyed in its table by mqtt_message_id. */
  datatype Production = Production(id: nat, entry: Entry, summaryApplied: bool)

  datatype CommandStatus = Received | Published | CommandFailed | Duplicate | CommandRejected

  datatype Reply = Reply(code: int, body: Json)

  /** A row of api_commands. */
  datatype Command = Command(
    requestId: string, key: Option<string>, receivedAt: int, status: CommandStatus, reply: Option<Reply>)

  datatype Tables = Tables(
    messages: map<nat, Message>, nextMessage: nat,
    production: map<nat, Production>, nextProduction: nat,
    summaries: seq<Summary>,
    commands: map<nat, Command>, nextCommand: nat)

  // ---------------------------------------------------------------------------------------------
  // mqtt_messages

  /** The rows with a given message hash; the UNIQUE column allows one. */
  function WithIdentity(messages: map<nat, Message>, identity: string): set<nat> {
    set i | i in messages && messages[i].Identity() == identity
  }

  function FindIdentity(messages: map<nat, Message>, identity: string): (id: Option<nat>)
    ensures id.Some? ==> id.value in messages && messages[id.value].Identity() == identity
    ensures id.None? ==> forall i :: i in messages ==> messages[i].Identity() != identity
  {
    var found := WithIdentity(messages, identity);
    if found == {} then
      assert forall i :: i in messages && messages[i].Identity() == identity ==> i in found;
      None
    else Some(Minimum(found))
  }

  /** The columns are what the parser made of the payload. */
  predicate Genuine(m: Message) {
    ParsePlcMessage(m.payload) == Some((m.messageType, MessageParser.Parts(m.model, m.serial, m.tableNo)))
  }

  /** No transaction changes what was received. */
  predicate SameSource(m: Message, m': Message) {
    && m'.topic == m.topic && m'.rawPayload == m.rawPayload && m'.payload == m.payload
    && m'.messageType == m.messageType && m'.tableNo == m.tableNo && m'.model == m.model && m'.serial == m.serial
  }

  /** A row as save_message inserts it. */
  predicate FreshRow(m: Message) {
    && Genuine(m)
    && m.status.New? && m.retryCount == 0 && m.lastAttemptAt.None? && m.completedAt.None?
    && m.odooResponse.None? && m.ack.None? && m.replayCount == 0 && m.lastReplayAt.None?
  }

  /** save_message for a hash that is not stored yet. */
  function Insert(t: Tables, m: Message): Tables {
    t.(messages := t.messages[t.nextMessage := m], nextMessage := t.nextMessage + 1)
  }

  function ClaimableIds(messages: map<nat, Message>, maxRetries: int): set<nat> {
    set i | i in messages && messages[i].Claimable(maxRetries)
  }

  /** The ids that claim_pending_messages selects. */
  ghost function ClaimSelection(t: Tables, batchSize: int, maxRetries: int): seq<nat> {
    if batchSize <= 0 then [] else FirstIds(ClaimableIds(t.messages, maxRetries), batchSize)
  }

  function Claimed(t: Tables, ids: seq<nat>, attemptAt: int): Tables {
    t.(messages := map i | i in t.messages ::
         if i in ids then t.messages[i].(status := Processing, lastAttemptAt := Some(attemptAt))
         else t.messages[i])
  }

  /** The new retry_count of mark_failed; floor is max_retries for a failure that must not be retried. */
  function FailedRetries(retryCount: nat, floor: Option<int>): nat {
    if floor.Some? && floor.value > retryCount + 1 then floor.value else retryCount + 1
  }

  function FailedRow(m: Message, attemptAt: int, response: Option<Text>, floor: Option<int>): Message {
    m.(status := Failed, retryCount := FailedRetries(m.retryCount, floor), lastAttemptAt := Some(attemptAt),
       odooResponse := Latest(response, m.odooResponse))
  }

  function MarkFailed(t: Tables, id: nat, attemptAt: int, response: Option<Text>, floor: Option<int>): Tables
    requires id in t.messages
  {
    t.(messages := t.messages[id := FailedRow(t.messages[id], attemptAt, response, floor)])
  }

  predicate Stale(m: Message, staleBefore: int) {
    m.status.Processing? && (m.lastAttemptAt.None? || m.lastAttemptAt.value < staleBefore)
  }

  /** reset_stale_processing. */
  function Recovered(t: Tables, staleBefore: int, excluded: set<nat>, recoveredAt: int): Tables {
    t.(messages := map i | i in t.messages ::
         var m := t.messages[i];
         if i !in excluded && Stale(m, staleBefore)
         then m.(status := Failed, retryCount := m.retryCount + 1, lastAttemptAt := Some(recoveredAt))
         else m)
  }

  // ---------------------------------------------------------------------------------------------
  // Production ledger

  const DEFAULT_MACHINE_ID := "BEB"

  /** A count that was applied to the daily summary. */
  datatype Applied = Applied(messageId: nat, entry: Entry)

  /** The tables together with the log of every count ever applied. */
  datatype Books = Books(tables: Tables, log: seq<Applied>)

  function EntryOf(m: Message, completedAt: int, machineId: string, ack: string, md: Metadata): Entry {
    Entry(completedAt, machineId, m.tableNo, m.model, md.customerId, md.batchNumber, md.operatorId, ack,
          Labels(md.customerName, md.operatorName, md.numberOfOperators))
  }

  predicate SummaryApplied(t: Tables, id: nat) {
    id in t.production && t.production[id].summaryApplied
  }

  /** _upsert_production_record_and_summary: one production row per message, counted once. */
  function Settle(b: Books, id: nat, e: Entry): Books {
    var t := b.tables;
    var known := id in t.production;
    var row := Production(if known then t.production[id].id else t.nextProduction, e, true);
    var t' := t.(production := t.production[id := row],
                 nextProduction := if known then t.nextProduction else t.nextProduction + 1);
    if SummaryApplied(t, id) then Books(t', b.log)
    else Books(t'.(summaries := Increment(t.summaries, e)), b.log + [Applied(id, e)])
  }

  function CompletedRow(m: Message, response: Text, completedAt: int, ack: Option<string>): Message {
    m.(status := Completed, completedAt := Some(At(completedAt)), odooResponse := Some(response), ack := ack)
  }

  predicate Truthy(ack: Option<string>) { ack.Some? && ack.value != "" }

  /** mark_completed. */
  function MarkCompleted(b: Books, id: nat, response: Text, completedAt: int, ack: Option<string>,
                         given: Metadata, machineId: string): Books
    requires id in b.tables.messages
  {
    var m := b.tables.messages[id];
    var done := b.(tables := b.tables.(
                     messages := b.tables.messages[id := CompletedRow(m, response, completedAt, ack)]));
    if !Truthy(ack) then done
    else
      var machine := if machineId == "" then DEFAULT_MACHINE_ID else machineId;
      Settle(done, id, EntryOf(m, completedAt, machine, ack.value, Prefer(given, MetadataFromText(response))))
  }

  predicate AwaitsSummary(t: Tables, id: nat) {
    && id in t.messages
    && t.messages[id].status.Completed?
    && t.messages[id].completedAt.Some? && t.messages[id].odooResponse.Some? && t.messages[id].ack.Some?
    && !SummaryApplied(t, id)
  }

  function AwaitingIds(t: Tables): set<nat> {
    set i | i in t.messages && AwaitsSummary(t, i)
  }

  /** One iteration of reconcile_completed_production_records; an unreadable completed_at raises before
      anything is written, and the row is skipped. */
  function ReconcileRow(b: Books, id: nat, machineId: string): Books {
    if id !in b.tables.messages || !AwaitsSummary(b.tables, id) || b.tables.messages[id].completedAt.value.Unreadable? then b
    else Settle(b, id, StoredEntry(b.tables.messages[id], machineId))
  }

  /** The entry that reconciliation rebuilds from a stored row alone. */
  function StoredEntry(m: Message, machineId: string): Entry
    requires m.completedAt.Some? && m.completedAt.value.At? && m.odooResponse.Some? && m.ack.Some?
  {
    EntryOf(m, m.completedAt.value.seconds, machineId, m.ack.value, MetadataFromText(m.odooResponse.value))
  }

  function ReconcileRows(b: Books, ids: seq<nat>, machineId: string): Books {
    if ids == [] then b
    else ReconcileRow(ReconcileRows(b, ids[..|ids| - 1], machineId), ids[|ids| - 1], machineId)
  }

  ghost function Reconcile(b: Books, limit: int, machineId: string): Books {
    if limit <= 0 then b else ReconcileRows(b, FirstIds(AwaitingIds(b.tables), limit), machineId)
  }

  // ---------------------------------------------------------------------------------------------
  // Retention

  predicate MessageExpired(t: Tables, id: nat, cutoff: int) {
    && id in t.messages
    && t.messages[id].status.Completed?
    && t.messages[id].completedAt.Some? && t.messages[id].completedAt.value.At?
    && t.messages[id].completedAt.value.seconds < cutoff
    && SummaryApplied(t, id)
  }

  predicate CommandExpired(c: Command, cutoff: int) { !c.status.Received? && c.receivedAt < cutoff }

  predicate ProductionExpired(p: Production, cutoff: int) { p.summaryApplied && p.entry.completedAt < cutoff }

  function ExpiredMessages(t: Tables, cutoff: int): set<nat> {
    set i | i in t.messages && MessageExpired(t, i, cutoff)
  }

  function ExpiredCommands(t: Tables, cutoff: int): set<nat> {
    set i | i in t.commands && CommandExpired(t.commands[i], cutoff)
  }

  /** The production ids, not the message ids, that order the last of the three deletions. */
  function ExpiredProduction(t: Tables, cutoff: int): set<nat> {
    set i | i in t.production && ProductionExpired(t.production[i], cutoff) :: t.production[i].id
  }

  /** What one cleanup call deletes: the three deletions share one batch. */
  datatype Cleanup = Cleanup(messages: seq<nat>, commands: seq<nat>, production: seq<nat>)
  {
    function Total(): nat { |messages| + |commands| + |production| }
  }

  ghost function CleanupSelection(t: Tables, cutoff: int, batchSize: nat): (d: Cleanup)
    ensures d.Total() <= batchSize
  {
    var messages := FirstIds(ExpiredMessages(t, cutoff), batchSize);
    var commands := FirstIds(ExpiredCommands(t, cutoff), batchSize - |messages|);
    var production := FirstIds(ExpiredProduction(t, cutoff), batchSize - |messages| - |commands|);
    Cleanup(messages, commands, production)
  }

  /** `DELETE ... WHERE id IN ids`. */
  function Without<Row>(rows: map<nat, Row>, ids: seq<nat>): map<nat, Row> {
    map i | i in rows && i !in ids :: rows[i]
  }

  function WithoutProduction(rows: map<nat, Production>, ids: seq<nat>): map<nat, Production> {
    map i | i in rows && rows[i].id !in ids :: rows[i]
  }

  function Deleted(t: Tables, d: Cleanup): Tables {
    t.(messages := Without(t.messages, d.messages),
       commands := Without(t.commands, d.commands),
       production := WithoutProduction(t.production, d.production))
  }

  /** The retention cutoff, truncated when it is formatted. */
  function Cutoff(now: int, retentionDays: nat): int { Stored(now - retentionDays * DAY) }

  /** cleanup_raw_operational_data. */
  ghost function CleanedUp(t: Tables, now: int, retentionDays: nat, batchSize: int): Tables {
    if batchSize <= 0 then t else Deleted(t, CleanupSelection(t, Cutoff(now, retentionDays), batchSize))
  }

  // ---------------------------------------------------------------------------------------------
  // ACK replay throttle

  const ACK_REPLAY_MAX_COUNT := 3
  const ACK_REPLAY_MIN_INTERVAL := 2 * SECOND
  const ACK_REPLAY_WINDOW := 30 * SECOND

  datatype Attempt = Allowed | LimitReached | TooSoon

  /** record_ack_replay_attempt on the two throttle columns of a row. */
  function ReplayAttempt(count: nat, last: Option<int>, now: int): Attempt {
    if last.None? || now - last.value * SECOND >= ACK_REPLAY_WINDOW then Allowed
    else if count >= ACK_REPLAY_MAX_COUNT then LimitReached
    else if now - last.value * SECOND < ACK_REPLAY_MIN_INTERVAL then TooSoon
    else Allowed
  }

  function ReplayCount(count: nat, last: Option<int>, now: int): nat {
    if last.None? || now - last.value * SECOND >= ACK_REPLAY_WINDOW then 1 else count + 1
  }

  function Replayed(t: Tables, id: nat, now: int): Tables
    requires id in t.messages
  {
    var m := t.messages[id];
    t.(messages := t.messages[id := m.(replayCount := ReplayCount(m.replayCount, m.lastReplayAt, now),
                                       lastReplayAt := Some(Stored(now)))])
  }
}
