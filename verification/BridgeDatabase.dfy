/** `app/database.py` as the object it is: tables that each operation updates in place, in one transaction. An operation
    that raises leaves the tables as they were. Every operation is proved against its function in Store. */
module BridgeDatabase {
  import opened Wrappers
  import opened Clock
  import opened Selection
  import opened Responses
  import opened DailySummary
  import opened Totals
  import opened Store
  import CommandApi

  datatype ReconciliationResult = ReconciliationResult(
    scannedRows: nat, recoveredRecords: nat, recoveredSummaries: nat, skippedRows: nat)

  datatype CleanupResult = CleanupResult(deletedMessages: nat, deletedCommands: nat, deletedProduction: nat)

  datatype AckReplayAttempt = AckReplayAttempt(attempt: Attempt, replayCount: nat)

  function Smaller(a: nat, b: nat): nat { if a <= b then a else b }

  /** What a cleanup call deletes from each table: as much as is expired there and the shared batch still allows. */
  function Report(t: Tables, cutoff: int, batchSize: nat): CleanupResult {
    var messages := Smaller(|ExpiredMessages(t, cutoff)|, batchSize);
    var commands := Smaller(|ExpiredCommands(t, cutoff)|, batchSize - messages);
    CleanupResult(messages, commands, Smaller(|ExpiredProduction(t, cutoff)|, batchSize - messages - commands))
  }

  const DEFAULT_FINAL_RETRIES := 10

  class Database {
    var messages: map<nat, Message>
    var nextMessage: nat
    var production: map<nat, Production>
    var nextProduction: nat
    var summaries: seq<Summary>
    var commands: map<nat, Command>
    var nextCommand: nat

    ghost var log: seq<Applied>      // every count ever applied to the summaries

    function Rows(): (t: Tables)
      reads this
    {
      Tables.Tables(messages, nextMessage, production, nextProduction, summaries, commands, nextCommand)
    }

    ghost function Contents(): Books
      reads this
    {
      Books(Rows(), log)
    }

    constructor ()
      ensures Contents() == Books(Tables.Tables(map[], 0, map[], 0, [], map[], 0), [])
    {
      messages, nextMessage := map[], 0;
      production, nextProduction := map[], 0;
      summaries, commands, nextCommand, log := [], map[], 0, [];
    }

    // -------------------------------------------------------------------------------------------
    // mqtt_messages

    /** At most one row for each message hash: a known hash is reported, not inserted. */
    method SaveMessage(m: Message) returns (id: nat, inserted: bool)
      modifies this`messages, this`nextMessage
      ensures inserted <==> forall i :: i in old(messages) ==> old(messages)[i].Identity() != m.Identity()
      ensures inserted ==> id == old(nextMessage) && Contents() == Books(Insert(old(Rows()), m), log)
      ensures !inserted ==> Contents() == old(Contents()) && Some(id) == FindIdentity(messages, m.Identity())
    {
      var existing := FindIdentity(messages, m.Identity());
      if existing.Some? {
        return existing.value, false;
      }
      messages := messages[nextMessage := m];
      nextMessage := nextMessage + 1;
      return nextMessage - 1, true;
    }

    /** The claimed ids, ascending. */
    method ClaimPendingMessages(batchSize: int, maxRetries: int, now: int) returns (claimed: seq<nat>)
      modifies this`messages
      ensures claimed == ClaimSelection(old(Rows()), batchSize, maxRetries)
      ensures Contents() == Books(Claimed(old(Rows()), claimed, Stored(now)), log)
    {
      if batchSize <= 0 {
        return [];
      }
      claimed := SelectFirstIds(ClaimableIds(messages, maxRetries), batchSize);
      if claimed == [] {
        return;
      }
      messages := map i | i in messages ::
        if i in claimed then messages[i].(status := Processing, lastAttemptAt := Some(Stored(now)))
        else messages[i];
    }

    /** found is false for the ValueError of an unknown id, and then nothing is written. */
    method MarkCompletedRow(id: nat, response: Text, completedAt: int, ack: Option<string>, given: Metadata, machineId: string)
      returns (found: bool)
      modifies this`messages, this`production, this`nextProduction, this`summaries, this`log
      ensures found <==> id in old(messages)
      ensures !found ==> Contents() == old(Contents())
      ensures found ==> Contents() == MarkCompleted(old(Contents()), id, response, completedAt, ack, given, machineId)
    {
      if id !in messages {
        return false;
      }
      var source := messages[id];
      var metadata := Prefer(given, if Truthy(ack) then MetadataFromText(response) else NO_METADATA);
      messages := messages[id := source.(
        status := Completed, completedAt := Some(At(completedAt)), odooResponse := Some(response), ack := ack)];
      if Truthy(ack) {
        var machine := if machineId == "" then DEFAULT_MACHINE_ID else machineId;
        var _ := UpsertProductionRecordAndSummary(id, EntryOf(source, completedAt, machine, ack.value, metadata));
      }
      return true;
    }

    /** A failure that must not be retried raises retry_count to maxRetries, or to ten when it is not given. */
    method MarkFailedRow(id: nat, attemptAt: int, response: Option<Text>, retryable: bool, maxRetries: Option<int>)
      returns (found: bool)
      modifies this`messages
      ensures found <==> id in old(messages)
      ensures !found ==> Contents() == old(Contents())
      ensures found ==>
        var floor := if retryable then None else if maxRetries.Some? then maxRetries else Some(10);
        Contents() == Books(MarkFailed(old(Rows()), id, attemptAt, response, floor), log)
    {
      if id !in messages {
        return false;
      }
      var m := messages[id];
      var retries := m.retryCount + 1;
      if !retryable {
        var final := if maxRetries.Some? then maxRetries.value else DEFAULT_FINAL_RETRIES;
        if final > retries {
          retries := final;
        }
      }
      messages := messages[id := m.(status := Failed, retryCount := retries, lastAttemptAt := Some(attemptAt),
                                    odooResponse := if response.Some? then response else m.odooResponse)];
      return true;
    }

    method ResetStaleProcessing(staleBefore: int, excluded: set<nat>, now: int) returns (recovered: nat)
      modifies this`messages
      ensures Contents() == Books(Recovered(old(Rows()), staleBefore, excluded, Stored(now)), log)
      ensures recovered == |set i | i in old(messages) && i !in excluded && Stale(old(messages)[i], staleBefore)|
    {
      var stale := set i | i in messages && i !in excluded && Stale(messages[i], staleBefore);
      messages := map i | i in messages ::
        if i in stale
        then messages[i].(status := Failed, retryCount := messages[i].retryCount + 1, lastAttemptAt := Some(Stored(now)))
        else messages[i];
      return |stale|;
    }

    /** None is the ValueError of an unknown hash. Only an allowed attempt is recorded. */
    method RecordAckReplayAttempt(identity: string, now: int) returns (result: Option<AckReplayAttempt>)
      modifies this`messages
      ensures var found := FindIdentity(old(messages), identity);
        && (result.None? <==> found.None?)
        && (found.Some? ==>
              var m := old(messages)[found.value];
              && result.value.attempt == ReplayAttempt(m.replayCount, m.lastReplayAt, now)
              && (result.value.attempt.Allowed? ==> result.value.replayCount == ReplayCount(m.replayCount, m.lastReplayAt, now))
              && (!result.value.attempt.Allowed? ==> result.value.replayCount == m.replayCount))
        && Contents() == if found.Some? && result.value.attempt.Allowed?
                         then Books(Replayed(old(Rows()), found.value, now), log) else old(Contents())
    {
      var found := FindIdentity(messages, identity);
      if found.None? {
        return None;
      }
      var m := messages[found.value];
      var replayCount, lastReplayAt := m.replayCount, m.lastReplayAt;
      if lastReplayAt.None? {
        replayCount := 0;
      } else if now - lastReplayAt.value * SECOND >= ACK_REPLAY_WINDOW {
        replayCount, lastReplayAt := 0, None;
      }
      if replayCount >= ACK_REPLAY_MAX_COUNT {
        return Some(AckReplayAttempt(LimitReached, replayCount));
      }
      if lastReplayAt.Some? && now - lastReplayAt.value * SECOND < ACK_REPLAY_MIN_INTERVAL {
        return Some(AckReplayAttempt(TooSoon, replayCount));
      }
      replayCount := replayCount + 1;
      messages := messages[found.value := m.(replayCount := replayCount, lastReplayAt := Some(Stored(now)))];
      return Some(AckReplayAttempt(Allowed, replayCount));
    }

    // -------------------------------------------------------------------------------------------
    // Production ledger

    /** applied is true exactly when the summary was incremented. */
    method UpsertProductionRecordAndSummary(id: nat, e: Entry) returns (applied: bool)
      modifies this`production, this`nextProduction, this`summaries, this`log
      ensures applied <==> !SummaryApplied(old(Rows()), id)
      ensures Contents() == Settle(old(Contents()), id, e)
      ensures log == old(log) + if applied then [Applied(id, e)] else []
    {
      var alreadyApplied := id in production && production[id].summaryApplied;
      if id in production {
        production := production[id := production[id].(entry := e)];
      } else {
        production := production[id := Production(nextProduction, e, alreadyApplied)];
        nextProduction := nextProduction + 1;
      }
      if alreadyApplied {
        return false;
      }
      IncrementDailySummary(e);
      production := production[id := production[id].(summaryApplied := true)];
      log := log + [Applied(id, e)];
      return true;
    }

    method IncrementDailySummary(e: Entry)
      modifies this`summaries
      ensures summaries == Increment(old(summaries), e)
    {
      var i := 0;
      while i < |summaries| && summaries[i].Key() != e.Key()
        invariant 0 <= i <= |summaries|
        invariant forall j :: 0 <= j < i ==> summaries[j].Key() != e.Key()
      {
        i := i + 1;
      }
      FindIsFirst(summaries, e.Key(), i);
      if i == |summaries| {
        summaries := summaries + [NewRow(e)];
        return;
      }
      var row := summaries[i];
      var firstAck, firstAt, lastAck, lastAt := row.firstAck, row.firstAt, row.lastAck, row.lastAt;
      if e.completedAt < firstAt {
        firstAck, firstAt := e.ack, e.completedAt;
      }
      if e.completedAt >= lastAt {
        lastAck, lastAt := e.ack, e.completedAt;
      }
      summaries := summaries[i := row.(
        productionCount := row.productionCount + 1,
        firstAck := firstAck, firstAt := firstAt, lastAck := lastAck, lastAt := lastAt,
        labels := Labels(Latest(e.labels.customerName, row.labels.customerName),
                         Latest(e.labels.operatorName, row.labels.operatorName),
                         Latest(e.labels.numberOfOperators, row.labels.numberOfOperators)))];
    }

    /** Every scanned row is counted or, when its completion time is unreadable, skipped; nothing else changes. */
    method ReconcileCompletedProductionRecords(machineId: string, limit: int) returns (r: ReconciliationResult)
      modifies this`production, this`nextProduction, this`summaries, this`log
      ensures Contents() == Reconcile(old(Contents()), limit, machineId)
      ensures r.scannedRows == if limit <= 0 then 0 else |FirstIds(AwaitingIds(old(Rows())), limit)|
      ensures r.scannedRows == r.recoveredRecords + r.skippedRows
      ensures r.recoveredRecords == r.recoveredSummaries && |log| == |old(log)| + r.recoveredSummaries
    {
      if limit <= 0 {
        return ReconciliationResult(0, 0, 0, 0);
      }
      var rows := SelectFirstIds(AwaitingIds(Rows()), limit);
      assert forall k :: 0 <= k < |rows| ==> rows[k] in rows;
      var scanned, records, applied, skipped := 0, 0, 0, 0;
      while scanned < |rows|
        invariant 0 <= scanned <= |rows|
        invariant Contents() == ReconcileRows(old(Contents()), rows[..scanned], machineId)
        invariant forall k :: scanned <= k < |rows| ==> AwaitsSummary(Rows(), rows[k])
        invariant scanned == records + skipped && records == applied
        invariant |log| == |old(log)| + applied
      {
        var id := rows[scanned];
        var row := messages[id];
        assert rows[..scanned + 1][..scanned] == rows[..scanned];
        scanned := scanned + 1;
        if row.completedAt.value.Unreadable? {
          skipped := skipped + 1;
        } else {
          var summaryAppliedBefore := id in production && production[id].summaryApplied;
          var metadata := MetadataFromText(row.odooResponse.value);
          var counted := UpsertProductionRecordAndSummary(
            id, EntryOf(row, row.completedAt.value.seconds, machineId, row.ack.value, metadata));
          if counted {
            applied := applied + 1;
          }
          if !summaryAppliedBefore {
            records := records + 1;
          }
        }
      }
      assert rows[..scanned] == rows;
      return ReconciliationResult(scanned, records, applied, skipped);
    }

    method QueryProductionSummaryTotals(f: Filter) returns (totals: Tally)
      ensures totals == QueryTotals(summaries, f)
    {
      totals := NOTHING;
      var i := 0;
      var q := (row: Summary) => f.AcceptsRow(row);
      while i < |summaries|
        invariant 0 <= i <= |summaries|
        invariant totals == SelectTotals(summaries[..i], q)
      {
        assert summaries[..i + 1][..i] == summaries[..i];
        if f.AcceptsRow(summaries[i]) {
          totals := Merge(totals, OfRow(summaries[i]));
        }
        i := i + 1;
      }
      assert summaries[..i] == summaries;
    }

    // -------------------------------------------------------------------------------------------
    // Retention

    /** None is the ValueError of a negative retention period. The three deletions share one batch. */
    method CleanupRawOperationalData(retentionDays: int, batchSize: int, now: int) returns (r: Option<CleanupResult>)
      modifies this`messages, this`commands, this`production
      ensures r.None? <==> retentionDays < 0
      ensures r.None? ==> Contents() == old(Contents())
      ensures r.Some? ==> Contents() == Books(CleanedUp(old(Rows()), now, retentionDays, batchSize), log)
      ensures r.Some? ==> r.value == Report(old(Rows()), Cutoff(now, retentionDays), if batchSize > 0 then batchSize else 0)
    {
      if retentionDays < 0 {
        return None;
      }
      if batchSize <= 0 {
        return Some(CleanupResult(0, 0, 0));
      }
      var result := DeleteExpired(Stored(now - retentionDays * DAY), batchSize);
      return Some(result);
    }

    /** The transaction of a cleanup call. */
    method DeleteExpired(cutoff: int, batchSize: nat) returns (r: CleanupResult)
      modifies this`messages, this`commands, this`production
      ensures var d := CleanupSelection(old(Rows()), cutoff, batchSize);
        && Rows() == Deleted(old(Rows()), d)
        && r == Report(old(Rows()), cutoff, batchSize)
    {
      var deletedMessages := DeleteMessages(cutoff, batchSize);
      var remainingBatch := batchSize - deletedMessages;
      var deletedCommands := DeleteCommands(cutoff, remainingBatch);
      remainingBatch := remainingBatch - deletedCommands;
      var deletedProduction := DeleteProduction(cutoff, remainingBatch);
      return CleanupResult(deletedMessages, deletedCommands, deletedProduction);
    }

    method DeleteMessages(cutoff: int, limit: nat) returns (deleted: nat)
      modifies this`messages
      ensures var ids := FirstIds(ExpiredMessages(old(Rows()), cutoff), limit);
              Rows() == old(Rows()).(messages := Without(old(messages), ids)) && deleted == |ids|
    {
      var ids := SelectFirstIds(ExpiredMessages(Rows(), cutoff), limit);
      if ids != [] {
        messages := map i | i in messages && i !in ids :: messages[i];
      }
      return |ids|;
    }

    method DeleteCommands(cutoff: int, limit: nat) returns (deleted: nat)
      modifies this`commands
      ensures var ids := FirstIds(ExpiredCommands(old(Rows()), cutoff), limit);
              Rows() == old(Rows()).(commands := Without(old(commands), ids)) && deleted == |ids|
    {
      if limit == 0 {
        return 0;
      }
      var ids := SelectFirstIds(ExpiredCommands(Rows(), cutoff), limit);
      commands := map i | i in commands && i !in ids :: commands[i];
      return |ids|;
    }

    method DeleteProduction(cutoff: int, limit: nat) returns (deleted: nat)
      modifies this`production
      ensures var ids := FirstIds(ExpiredProduction(old(Rows()), cutoff), limit);
              Rows() == old(Rows()).(production := WithoutProduction(old(production), ids)) && deleted == |ids|
    {
      if limit == 0 {
        return 0;
      }
      var ids := SelectFirstIds(ExpiredProduction(Rows(), cutoff), limit);
      production := map i | i in production && production[i].id !in ids :: production[i];
      return |ids|;
    }

    // -------------------------------------------------------------------------------------------
    // api_commands

    /** false is the IntegrityError of the UNIQUE columns. */
    method CreateApiCommandRecord(requestId: string, key: Option<string>, stampedAt: int) returns (created: bool)
      modifies this`commands, this`nextCommand
      ensures created <==> !CommandApi.HasRow(old(commands), requestId) && !CommandApi.KeyTaken(old(commands), key)
      ensures !created ==> Contents() == old(Contents())
      ensures created ==> Contents() == old(Contents()).(tables := old(Rows()).(
        commands := old(commands)[old(nextCommand) := Command(requestId, key, Stored(stampedAt), Received, None)],
        nextCommand := old(nextCommand) + 1))
    {
      if RowsOfRequest(commands, requestId) != {} || RowsOfKey(commands, key) != {} {
        return false;
      }
      commands := commands[nextCommand := Command(requestId, key, Stored(stampedAt), Received, None)];
      nextCommand := nextCommand + 1;
      return true;
    }

    /** None when no row holds the key. */
    method GetApiCommandByIdempotencyKey(key: string) returns (found: Option<nat>)
      ensures found.Some? ==> CommandApi.HoldsKey(commands, found.value, Some(key))
      ensures found.None? ==> !CommandApi.KeyTaken(commands, Some(key))
    {
      var holders := RowsOfKey(commands, Some(key));
      if holders == {} {
        return None;
      }
      return Some(Minimum(holders));
    }

    /** mark_api_command_published, _failed and _rejected; false is the ValueError of an unknown request. */
    method UpdateApiCommandResult(requestId: string, status: CommandStatus) returns (found: bool)
      modifies this`commands
      ensures found <==> CommandApi.HasRow(old(commands), requestId)
      ensures commands == CommandApi.WithStatus(old(commands), requestId, status)
    {
      var rows := RowsOfRequest(commands, requestId);
      commands := map i | i in commands ::
        if i in rows then commands[i].(status := status) else commands[i];
      return rows != {};
    }

    method SaveApiResponse(requestId: string, reply: Reply) returns (found: bool)
      modifies this`commands
      ensures found <==> CommandApi.HasRow(old(commands), requestId)
      ensures commands == CommandApi.WithReply(old(commands), requestId, reply)
    {
      var rows := RowsOfRequest(commands, requestId);
      commands := map i | i in commands ::
        if i in rows then commands[i].(reply := Some(reply)) else commands[i];
      return rows != {};
    }
  }

  function RowsOfRequest(commands: map<nat, Command>, requestId: string): (rows: set<nat>)
    ensures rows != {} <==> CommandApi.HasRow(commands, requestId)
    ensures forall i :: i in rows <==> CommandApi.RowOf(commands, i, requestId)
  {
    var rows := set i | i in commands && commands[i].requestId == requestId;
    assert forall i :: CommandApi.RowOf(commands, i, requestId) ==> i in rows;
    assert rows != {} ==> exists i :: i in rows && CommandApi.RowOf(commands, i, requestId);
    rows
  }

  function RowsOfKey(commands: map<nat, Command>, key: Option<string>): (rows: set<nat>)
    ensures rows != {} <==> CommandApi.KeyTaken(commands, key)
    ensures forall i :: i in rows <==> CommandApi.HoldsKey(commands, i, key)
  {
    var rows := set i | i in commands && key.Some? && commands[i].key == key;
    assert forall i :: CommandApi.HoldsKey(commands, i, key) ==> i in rows;
    assert rows != {} ==> exists i :: i in rows && CommandApi.HoldsKey(commands, i, key);
    rows
  }

  /** A linear search finds what `Find` finds. */
  lemma {:induction false} FindIsFirst(rows: seq<Summary>, key: GroupKey, i: nat)
    requires i <= |rows| && forall j :: 0 <= j < i ==> rows[j].Key() != key
    requires i < |rows| ==> rows[i].Key() == key
    ensures Find(rows, key) == i
  {
  }
}
