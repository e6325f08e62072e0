/** What the ledger, reconciliation and cleanup do to the columns of the tables. */
module Columns {
  import opened Wrappers
  import opened Clock
  import opened Selection
  import opened Responses
  import opened DailySummary
  import opened Store
  import opened Invariant
  import opened Reconciliation
  import opened Retention

  // ---------------------------------------------------------------------------------------------
  // Ledger

  predicate Applied(t: Tables, id: nat) { id in t.production && t.production[id].summaryApplied }

  /** The production row of the message holds what was counted, under its old id or the next one; it is counted unless it was
      before. */
  lemma SettlementInColumns(b: Books, id: nat, e: Entry)
    ensures var b', t := Settle(b, id, e), b.tables;
      && b'.tables == t.(production := b'.tables.production, nextProduction := b'.tables.nextProduction,
                         summaries := b'.tables.summaries)
      && b'.tables.production
         == t.production[id := Production(if id in t.production then t.production[id].id else t.nextProduction, e, true)]
      && b'.tables.nextProduction == (if id in t.production then t.nextProduction else t.nextProduction + 1)
      && b'.log == b.log + (if Applied(t, id) then [] else [Store.Applied.Applied(id, e)])
      && b'.tables.summaries == (if Applied(t, id) then t.summaries else Increment(t.summaries, e))
  {
    assert b.log + [] == b.log;
  }

  /** A completion without an ACK completes the row and counts nothing. */
  lemma CompletionWithoutAck(b: Books, id: nat, response: Text, at: int, ack: Option<string>,
                             given: Metadata, machineId: string)
    requires id in b.tables.messages && ack in {None, Some("")}
    ensures MarkCompleted(b, id, response, at, ack, given, machineId)
            == b.(tables := b.tables.(messages := b.tables.messages[id := b.tables.messages[id].(
                 status := Completed, completedAt := Some(At(at)), odooResponse := Some(response), ack := ack)]))
  {
  }

  function Either<T>(given: Option<T>, stored: Option<T>): Option<T> { if given.Some? then given else stored }

  /** What the caller knows of the job comes before what the stored text says; an empty machine id stands for BEB. */
  lemma GivenMetadataComesFirst(b: Books, id: nat, response: Text, at: int, ack: string, given: Metadata, machineId: string)
    requires id in b.tables.messages && ack != "" && !Applied(b.tables, id)
    ensures var b', md := MarkCompleted(b, id, response, at, Some(ack), given, machineId), MetadataFromText(response);
      && |b'.log| == |b.log| + 1 && b'.log[|b.log|].messageId == id
      && var e, m := b'.log[|b.log|].entry, b.tables.messages[id];
      && e.tableNo == m.tableNo && e.model == m.model
      && e.machineId == (if machineId == "" then "BEB" else machineId) && e.completedAt == at && e.ack == ack
      && e.customerId == Either(given.customerId, md.customerId) && e.operatorId == Either(given.operatorId, md.operatorId)
      && e.batchNumber == Either(given.batchNumber, md.batchNumber)
      && e.labels == Labels(Either(given.customerName, md.customerName), Either(given.operatorName, md.operatorName),
                            Either(given.numberOfOperators, md.numberOfOperators))
  {
  }

  /** The store reads a job out of JSON only: out of the older Python notation, or of a text without a result object, it reads
      nothing. */
  lemma StoredJobInFields(text: Text)
    ensures var md := MetadataFromText(text);
      if text.Dumped? && text.value.Obj? && "result" in text.value.fields && text.value.fields["result"].Obj? then
        var result := text.value.fields["result"].fields;
        md == Metadata(IntAt(result, "customer_id"), TextAt(result, "customer_name"), IntAt(result, "operator_id"),
                       TextAt(result, "operator_name"), IntAt(result, "number_of_operators"), TextAt(result, "batch_number"))
      else md == Metadata(None, None, None, None, None, None)
  {
  }

  // ---------------------------------------------------------------------------------------------
  // Reconciliation

  /** Completed at a readable time with a response and an ACK. */
  predicate Recoverable(m: Message) {
    && m.status == Completed && m.completedAt.Some? && m.completedAt.value.At? && m.odooResponse.Some? && m.ack.Some?
  }

  lemma AwaitingInColumns(t: Tables, i: nat)
    ensures i in AwaitingIds(t) <==>
      && i in t.messages && t.messages[i].status == Completed && !Applied(t, i)
      && t.messages[i].completedAt != None && t.messages[i].odooResponse != None && t.messages[i].ack != None
  {
  }

  /** A call with room for every candidate counts exactly the completed rows that have a readable time, a response and an ACK
      and were not counted before, and leaves the others. */
  lemma ReconcileInColumns(b: Books, limit: nat, machineId: string, i: nat)
    requires limit > 0 && |AwaitingIds(b.tables)| <= limit
    ensures Applied(Reconcile(b, limit, machineId).tables, i)
            <==> Applied(b.tables, i) || (i in b.tables.messages && Recoverable(b.tables.messages[i]))
  {
    CallVisits(b, limit, machineId);
    AwaitingInColumns(b.tables, i);
    if i in b.tables.messages && Recoverable(b.tables.messages[i]) && !Applied(b.tables, i) {
      assert i in AwaitingIds(b.tables);
    }
    assert SummaryApplied(Reconcile(b, limit, machineId).tables, i) <==> Applied(Reconcile(b, limit, machineId).tables, i);
    assert SummaryApplied(b.tables, i) <==> Applied(b.tables, i);
    assert forall j :: j in Selected(b.tables, limit) ==> j in AwaitingIds(b.tables);
  }

  // ---------------------------------------------------------------------------------------------
  // Cleanup

  /** Before the second that lies the retention period before now. */
  predicate Old(seconds: int, now: int, retentionDays: nat) { seconds < (now - retentionDays * 86_400_000_000) / 1_000_000 }

  predicate MessageGoes(t: Tables, i: nat, now: int, retentionDays: nat)
    requires i in t.messages
  {
    var m := t.messages[i];
    && m.status == Completed && m.completedAt.Some? && m.completedAt.value.At?
    && Old(m.completedAt.value.seconds, now, retentionDays) && Applied(t, i)
  }

  lemma ExpiredInColumns(t: Tables, now: int, retentionDays: nat)
    ensures var cutoff := Cutoff(now, retentionDays);
      && (forall i :: i in ExpiredMessages(t, cutoff) <==> i in t.messages && MessageGoes(t, i, now, retentionDays))
      && (forall i :: i in ExpiredCommands(t, cutoff) <==>
            i in t.commands && t.commands[i].status != Received && Old(t.commands[i].receivedAt, now, retentionDays))
      && (forall x :: x in ExpiredProduction(t, cutoff) <==>
            exists i :: i in t.production && t.production[i].id == x && t.production[i].summaryApplied
                        && Old(t.production[i].entry.completedAt, now, retentionDays))
  {
  }

  /** A call with room for everything old deletes exactly the completed, counted messages, the settled commands and the counted
      production rows that are older than the retention period. */
  lemma CleanupInColumns(t: Tables, now: int, retentionDays: nat, batchSize: nat)
    requires ProductionDistinct(t) && batchSize > 0 && Backlog(t, Cutoff(now, retentionDays)) <= batchSize
    ensures var t' := CleanedUp(t, now, retentionDays, batchSize);
      && (forall i :: i in t'.messages <==> i in t.messages && !MessageGoes(t, i, now, retentionDays))
      && (forall i :: i in t'.commands <==>
            i in t.commands && !(t.commands[i].status != Received && Old(t.commands[i].receivedAt, now, retentionDays)))
      && (forall i :: i in t'.production <==>
            i in t.production
            && !(t.production[i].summaryApplied && Old(t.production[i].entry.completedAt, now, retentionDays)))
      && t'.summaries == t.summaries
  {
    var cutoff := Cutoff(now, retentionDays);
    ExpiredInColumns(t, now, retentionDays);
    EverythingIsSelected(t, cutoff, batchSize);
    var d := CleanupSelection(t, cutoff, batchSize);
    forall i | i in t.production
      ensures t.production[i].id in d.production
              <==> t.production[i].summaryApplied && Old(t.production[i].entry.completedAt, now, retentionDays)
    {
      assert t.production[i].id in ExpiredProduction(t, cutoff)
        <==> t.production[i].summaryApplied && Old(t.production[i].entry.completedAt, now, retentionDays);
    }
  }

  lemma EverythingIsSelected(t: Tables, cutoff: int, batchSize: nat)
    requires Backlog(t, cutoff) <= batchSize
    ensures var d := CleanupSelection(t, cutoff, batchSize);
      && (forall i :: i in d.messages <==> i in ExpiredMessages(t, cutoff))
      && (forall i :: i in d.commands <==> i in ExpiredCommands(t, cutoff))
      && (forall x :: x in d.production <==> x in ExpiredProduction(t, cutoff))
  {
  }
}
