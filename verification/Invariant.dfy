/** The inductive invariant that ties the tables, the worker's memory and the history together. */
module Invariant {
  import opened Wrappers
  import opened Selection
  import opened Responses
  import opened DailySummary
  import opened Store
  import opened System

  // ---------------------------------------------------------------------------------------------
  // The invariant

  predicate Distinct(ids: seq<nat>) {
    forall i, j :: 0 <= i < j < |ids| ==> ids[i] != ids[j]
  }

  /** The claimed messages whose outcome the worker has not committed yet. */
  function Owned(w: Worker): seq<nat> {
    match w
    case Idle => []
    case Working(rest) => rest
    case Submitting(id, _, rest) => [id] + rest
    case Acknowledging(_, _, rest) => rest
  }

  /** The claimed messages not handed to the submitter yet. */
  function Waiting(w: Worker): seq<nat> {
    match w
    case Idle => []
    case Working(rest) => rest
    case Submitting(_, _, rest) => rest
    case Acknowledging(_, _, rest) => rest
  }

  /** AUTOINCREMENT and the UNIQUE message_hash. */
  ghost predicate RowsDistinct(t: Tables) {
    && (forall i :: i in t.messages ==> i < t.nextMessage)
    && (forall i, j :: i in t.messages && j in t.messages && i != j
                       ==> t.messages[i].Identity() != t.messages[j].Identity())
  }

  /** mark_completed and mark_failed have no status guard; this is what makes them safe. */
  ghost predicate OwnedRowsOpen(s: State) {
    && Distinct(Owned(s.worker))
    && forall i :: i in Owned(s.worker)
                   ==> i in s.Messages() && (s.Messages()[i].status.Processing? || s.Messages()[i].status.Failed?)
  }

  function ClaimCap(c: Config): nat { if c.maxRetries > 1 then c.maxRetries else 1 }

  function InHand(m: Message): nat { if m.status.Processing? || m.status.Completed? then 1 else 0 }

  function Pending(w: Worker, id: nat): nat { if id in Waiting(w) then 1 else 0 }

  ghost predicate ClaimsBounded(c: Config, s: State) {
    && (forall i :: s.history.claims[i] <= ClaimCap(c))
    && (forall i :: i >= s.books.tables.nextMessage ==> s.history.claims[i] == 0)
    && (forall i :: i in s.Messages() ==>
          && s.history.claims[i] <= s.Messages()[i].retryCount + InHand(s.Messages()[i])
          && (s.Messages()[i].status.New? ==> s.history.claims[i] == 0))
  }

  ghost predicate SubmissionsClaimed(s: State) {
    forall i :: s.history.submissions[i] + Pending(s.worker, i) <= s.history.claims[i]
  }

  /** ack answers message id: it is the ACK in the one successful response committed for it. */
  ghost predicate Answers(h: History, id: nat, ack: string) {
    id in h.responses && StoredAck(Some(h.responses[id])) == Some(ack)
  }

  /** The rows a duplicate delivery is answered from. */
  predicate Replayable(m: Message) { m.status.Completed? && StoredAck(m.odooResponse).Some? }

  ghost predicate ResponsesCommitted(s: State) {
    && (forall i :: s.history.completions[i] <= 1)
    && (forall i :: s.history.completions[i] > 0 ==> i in s.history.responses)
    && (forall i :: i in s.history.responses ==> i < s.books.tables.nextMessage)
    && (forall i :: i in s.history.responses && i in s.Messages() ==>
          && s.Messages()[i].status.Completed?
          && s.Messages()[i].odooResponse == Some(s.history.responses[i]))
    && (forall i :: i in s.Messages() && Replayable(s.Messages()[i]) ==> i in s.history.responses)
  }

  ghost predicate AcksAnswer(s: State) {
    && (forall i, ack :: (i, ack) in s.history.acks ==> Answers(s.history, i, ack))
    && (s.worker.Acknowledging? ==> Answers(s.history, s.worker.id, s.worker.ack))
    && (s.callback.Throttling? ==> Answers(s.history, s.callback.id, s.callback.ack))
    && (s.callback.Sending? ==> Answers(s.history, s.callback.id, s.callback.ack))
  }

  ghost predicate ClosedRowsRest(c: Config, s: State) {
    forall i :: i in s.history.closed ==>
      && i in s.Messages() && i !in Owned(s.worker) && i !in s.history.responses
      && s.Messages()[i].status.Failed? && s.Messages()[i].retryCount >= c.maxRetries
  }

  function Entries(log: seq<Applied>): (r: seq<Entry>)
    ensures |r| == |log|
  {
    seq(|log|, i requires 0 <= i < |log| => log[i].entry)
  }

  /** AUTOINCREMENT on production_records. */
  ghost predicate ProductionDistinct(t: Tables) {
    && (forall i :: i in t.production ==> t.production[i].id < t.nextProduction)
    && (forall i, j :: i in t.production && j in t.production && i != j
                       ==> t.production[i].id != t.production[j].id)
  }

  ghost predicate Counted(log: seq<Applied>, id: nat) { exists k :: 0 <= k < |log| && log[k].messageId == id }

  ghost predicate CountedOnce(log: seq<Applied>) {
    forall j, k :: 0 <= j < k < |log| ==> log[j].messageId != log[k].messageId
  }

  /** While the source row of a counted message exists, so does the production row that remembers the
      count, completed at the same time; a production row without a source row is never reused. */
  ghost predicate LedgerSound(b: Books) {
    && b.tables.summaries == Rebuild(Entries(b.log))
    && ProductionDistinct(b.tables)
    && CountedOnce(b.log)
    && (forall i :: SummaryApplied(b.tables, i) ==> Counted(b.log, i))
    && (forall i: nat :: Counted(b.log, i) ==>
          && i < b.tables.nextMessage
          && (i in b.tables.messages ==> CountRemembered(b.tables, i)))
  }

  ghost predicate CountRemembered(t: Tables, i: nat)
    requires i in t.messages
  {
    && t.messages[i].status.Completed?
    && SummaryApplied(t, i)
    && t.messages[i].completedAt == Some(At(t.production[i].entry.completedAt))
  }

  /** The retry protocol. */
  ghost predicate QueueInv(c: Config, s: State) {
    RowsDistinct(s.books.tables) && OwnedRowsOpen(s) && ClaimsBounded(c, s) && SubmissionsClaimed(s)
  }

  /** Responses, acknowledgements and closed messages. */
  ghost predicate AnswerInv(c: Config, s: State) {
    ResponsesCommitted(s) && AcksAnswer(s) && ClosedRowsRest(c, s)
  }

  ghost predicate Inv(c: Config, s: State) {
    QueueInv(c, s) && AnswerInv(c, s) && LedgerSound(s.books)
  }

  /** A first start: the queue may hold rows of any earlier version, nothing is summarised yet. */
  ghost predicate Init(s: State) {
    && RowsDistinct(s.books.tables)
    && s.books.tables.production == map[] && s.books.tables.summaries == [] && s.books.log == []
    && s.worker.Idle? && s.callback.Quiet?
    && s.history.claims == multiset{} && s.history.submissions == multiset{} && s.history.completions == multiset{}
    && s.history.closed == {} && s.history.acks == multiset{}
    && (forall i :: i in s.history.responses <==>
          i in s.Messages() && Replayable(s.Messages()[i]))
    && (forall i :: i in s.history.responses ==> s.Messages()[i].odooResponse == Some(s.history.responses[i]))
  }

  lemma InitEstablishes(c: Config, s: State)
    requires Init(s)
    ensures Inv(c, s)
  {
    assert Entries([]) == [];
  }
}
