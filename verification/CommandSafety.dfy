/** At most one publication per idempotency key and retention period, and stable answers, over every interleaving. */
module CommandSafety {
  import opened Wrappers
  import opened Clock
  import opened Responses
  import opened Store
  import opened CommandApi

  // ---------------------------------------------------------------------------------------------
  // The invariant

  /** The UNIQUE columns request_id and idempotency_key, and AUTOINCREMENT. */
  ghost predicate KeysUnique(s: State) {
    && (forall i :: i in s.commands ==> i < s.nextCommand)
    && (forall i, j :: i in s.commands && j in s.commands && i != j ==> s.commands[i].requestId != s.commands[j].requestId)
    && (forall i, j :: i in s.commands && j in s.commands && i != j && s.commands[i].key.Some?
                       ==> s.commands[i].key != s.commands[j].key)
  }

  /** Before its row is inserted. */
  predicate Early(p: Phase) { p.Checking? || p.Inserting? || p.Rechecking? }

  /** After its command was published, if it ever is. */
  predicate Late(p: Phase) { p.Marking? || p.Responding? || p.Answered? || p.Raised? }

  /** A row belongs to a request that has inserted it; a stored answer is the one that request gave. */
  ghost predicate Owned(s: State, row: Command) {
    && row.requestId in s.requests
    && var p := s.requests[row.requestId].phase;
       !Early(p) && (row.reply.Some? ==> p == Answered(row.reply.value) || p.Raised?)
  }

  ghost predicate RowsOwned(s: State) {
    forall i :: i in s.commands ==> Owned(s, s.commands[i])
  }

  predicate Inserted(p: Phase) { p.Publishing? || p.Marking? }

  ghost predicate InsertedRow(s: State, id: string, r: Request, i: nat) {
    && RowOf(s.commands, i, id)
    && s.commands[i].key == r.key && s.commands[i].status.Received? && s.commands[i].reply.None?
    && (r.phase.Publishing? ==>
          s.commands[i].receivedAt == Stored(r.phase.stampedAt) && r.phase.stampedAt <= s.latest)
  }

  /** Between its insertion and its mark the row of a request is there, RECEIVED, under its key. */
  ghost predicate RowPresent(s: State, id: string, r: Request) { exists i :: InsertedRow(s, id, r, i) }

  ghost predicate RowsPresent(s: State) {
    forall id :: id in s.requests && Inserted(s.requests[id].phase) ==> RowPresent(s, id, s.requests[id])
  }

  /** The row that publication p left behind. */
  ghost predicate RowOfPublish(s: State, p: Publish, i: nat) {
    RowOf(s.commands, i, p.requestId) && s.commands[i].key == p.key && s.commands[i].receivedAt == Stored(p.stampedAt)
  }

  /** The row of publication p is still there, or p was received longer ago than the retention period. */
  ghost predicate Remembered(c: Config, s: State, p: Publish) {
    (exists i :: RowOfPublish(s, p, i)) || s.latest - p.stampedAt > c.retentionDays * DAY
  }

  ghost predicate Logged(c: Config, s: State, p: Publish) {
    && p.requestId in s.requests && Late(s.requests[p.requestId].phase)
    && p.stampedAt <= p.seen <= s.latest && p.at <= p.seen
    && Remembered(c, s, p)
  }

  ghost predicate LogRemembered(c: Config, s: State) {
    forall k :: 0 <= k < |s.log| ==> Logged(c, s, s.log[k])
  }

  predicate SameKey(p: Publish, q: Publish) { p.key.Some? && p.key == q.key }

  /** Of two publications under one key the later comes after the retention period of the earlier. */
  ghost predicate LogApart(c: Config, s: State) {
    forall j, k :: 0 <= j < k < |s.log| ==>
      && s.log[j].requestId != s.log[k].requestId
      && (SameKey(s.log[j], s.log[k]) ==> s.log[k].seen - s.log[j].stampedAt > c.retentionDays * DAY)
  }

  ghost predicate Inv(c: Config, s: State) {
    KeysUnique(s) && RowsOwned(s) && RowsPresent(s) && LogRemembered(c, s) && LogApart(c, s)
  }

  /** Start-up: no request is under way, and the table may hold rows that earlier requests left. */
  ghost predicate Init(s: State) {
    && KeysUnique(s) && s.log == []
    && (forall i :: i in s.commands ==> s.commands[i].requestId in s.requests)
    && (forall id :: id in s.requests ==> s.requests[id].phase.Raised?)
  }

  // ---------------------------------------------------------------------------------------------
  // Steps that write no log

  predicate SameRow(row: Command, row': Command) {
    row'.requestId == row.requestId && row'.key == row.key && row'.receivedAt == row.receivedAt
  }

  /** s' comes after s: rows stay unless they are expired, and finished requests stay finished. */
  ghost predicate Follows(c: Config, s: State, s': State) {
    && s'.latest >= s.latest
    && (forall i :: i in s.commands ==>
          if i in s'.commands then SameRow(s.commands[i], s'.commands[i])
          else s.commands[i].receivedAt < Cutoff(s'.latest, c.retentionDays))
    && (forall id :: id in s.requests ==>
          id in s'.requests && (Late(s.requests[id].phase) ==> Late(s'.requests[id].phase)))
  }

  lemma LoggedFollows(c: Config, s: State, s': State, p: Publish)
    requires Logged(c, s, p) && Follows(c, s, s')
    ensures Logged(c, s', p)
  {
    if exists i :: RowOfPublish(s, p, i) {
      var i :| RowOfPublish(s, p, i);
      if i in s'.commands {
        assert RowOfPublish(s', p, i);
      }
    }
  }

  lemma LogFollows(c: Config, s: State, s': State)
    requires LogRemembered(c, s) && LogApart(c, s) && Follows(c, s, s') && s'.log == s.log
    ensures LogRemembered(c, s') && LogApart(c, s')
  {
    forall k | 0 <= k < |s'.log|
      ensures Logged(c, s', s'.log[k])
    {
      LoggedFollows(c, s, s', s.log[k]);
    }
  }

  /** Every request but id, and its inserted row, is as it was. */
  ghost predicate OthersKeep(s: State, s': State, id: string) {
    && s'.latest >= s.latest
    && (forall other :: other in s'.requests && other != id ==> other in s.requests && s'.requests[other] == s.requests[other])
    && (forall i :: i in s.commands && s.commands[i].requestId != id && s.commands[i].status.Received?
                    ==> i in s'.commands && s'.commands[i] == s.commands[i])
  }

  lemma PresentKeeps(s: State, s': State, id: string)
    requires RowsPresent(s) && OthersKeep(s, s', id)
    requires id in s'.requests && Inserted(s'.requests[id].phase) ==> RowPresent(s', id, s'.requests[id])
    ensures RowsPresent(s')
  {
    forall other | other in s'.requests && Inserted(s'.requests[other].phase)
      ensures RowPresent(s', other, s'.requests[other])
    {
      if other != id {
        var i :| InsertedRow(s, other, s.requests[other], i);
        assert InsertedRow(s', other, s'.requests[other], i);
      }
    }
  }

  lemma ArriveKeeps(c: Config, s: State, a: Action)
    requires Inv(c, s) && a.Arrive?
    ensures Inv(c, Act(c, s, a))
  {
    PresentKeeps(s, Act(c, s, a), a.requestId);
    LogFollows(c, s, Act(c, s, a));
  }

  /** How one request may move: never back, and not at all once it is over. */
  predicate Advances(p: Phase, p': Phase) {
    && (!Early(p) ==> !Early(p'))
    && (Late(p) ==> Late(p'))
    && (p.Answered? || p.Raised? ==> p' == p)
  }

  /** Moving one request to another phase while no row changes. */
  lemma EnterKeeps(c: Config, s: State, id: string, phase: Phase)
    requires Inv(c, s) && id in s.requests
    requires Advances(s.requests[id].phase, phase)
    requires Inserted(phase) ==> RowPresent(s, id, Request(s.requests[id].key, phase))
    ensures Inv(c, Enter(s, id, phase))
  {
    var s' := Enter(s, id, phase);
    if Inserted(phase) {
      var i :| InsertedRow(s, id, Request(s.requests[id].key, phase), i);
      assert InsertedRow(s', id, s'.requests[id], i);
    }
    PresentKeeps(s, s', id);
    LogFollows(c, s, s');
  }

  lemma CheckKeeps(c: Config, s: State, id: string, now: int)
    requires Inv(c, s)
    ensures Inv(c, OnCheck(c, s, id, now))
  {
    if id in s.requests && Early(s.requests[id].phase) && !s.requests[id].phase.Inserting? {
      EnterKeeps(c, s, id, OnCheck(c, s, id, now).requests[id].phase);
    }
  }

  lemma InsertKeeps(c: Config, s: State, id: string, stampedAt: int)
    requires Inv(c, s)
    ensures Inv(c, OnInsert(s, id, stampedAt))
  {
    var s' := OnInsert(s, id, stampedAt);
    if id in s.requests && s.requests[id].phase.Inserting? {
      var r := s.requests[id];
      if KeyTaken(s.commands, r.key) {
        EnterKeeps(c, s, id, s'.requests[id].phase);
      } else {
        InsertionKeeps(c, s, s', id, Command(id, r.key, Stored(stampedAt), Received, None));
      }
    }
  }

  lemma InsertionKeepsRows(s: State, s': State, id: string, row: Command)
    requires KeysUnique(s) && RowsOwned(s) && Inserts(s, s', id, row)
    ensures KeysUnique(s') && RowsOwned(s')
  {
    assert forall i :: i in s.commands ==> !HoldsKey(s.commands, i, row.key);
    assert forall i :: i in s.commands ==> Owned(s, s.commands[i]);
  }

  /** s' is s with the new row of request id, until then before its insertion. */
  ghost predicate Inserts(s: State, s': State, id: string, row: Command) {
    && id in s.requests && id in s'.requests && Early(s.requests[id].phase) && !Early(s'.requests[id].phase)
    && s' == s.(requests := s.requests[id := s'.requests[id]], latest := s'.latest,
                commands := s.commands[s.nextCommand := row], nextCommand := s.nextCommand + 1)
    && s'.latest >= s.latest
    && !KeyTaken(s.commands, row.key) && row.requestId == id && row.reply.None?
  }

  lemma InsertionKeeps(c: Config, s: State, s': State, id: string, row: Command)
    requires Inv(c, s) && Inserts(s, s', id, row)
    requires InsertedRow(s', id, s'.requests[id], s.nextCommand)
    ensures Inv(c, s')
  {
    InsertionKeepsRows(s, s', id, row);
    PresentKeeps(s, s', id);
    LogFollows(c, s, s');
  }

  lemma RefreshFailsKeeps(c: Config, s: State, id: string, body: Json)
    requires Inv(c, s)
    ensures Inv(c, OnRefreshFails(s, id, body))
  {
    if id in s.requests && s.requests[id].phase.Publishing? {
      var i :| InsertedRow(s, id, s.requests[id], i);
      var phase := Marking(CommandFailed, Reply(503, body));
      assert InsertedRow(s, id, Request(s.requests[id].key, phase), i);
      EnterKeeps(c, s, id, phase);
    }
  }

  /** s' is s after an UPDATE of the row of request id, which has not answered yet. */
  ghost predicate Updates(s: State, s': State, id: string) {
    && id in s.requests && id in s'.requests
    && s' == s.(requests := s.requests[id := s'.requests[id]], commands := s'.commands)
    && Advances(s.requests[id].phase, s'.requests[id].phase)
    && !Early(s.requests[id].phase) && !Inserted(s'.requests[id].phase)
    && s'.commands.Keys == s.commands.Keys
    && forall i :: i in s.commands ==>
         && SameRow(s.commands[i], s'.commands[i])
         && (s.commands[i].requestId != id ==> s'.commands[i] == s.commands[i])
         && (s.commands[i].requestId == id ==> Owned(s', s'.commands[i]))
  }

  lemma UpdateKeeps(c: Config, s: State, s': State, id: string)
    requires Inv(c, s) && Updates(s, s', id)
    ensures Inv(c, s')
  {
    assert RowsOwned(s') by {
      assert forall i :: i in s.commands ==> Owned(s, s.commands[i]);
    }
    PresentKeeps(s, s', id);
    LogFollows(c, s, s');
  }

  lemma MarkKeeps(c: Config, s: State, id: string)
    requires Inv(c, s)
    ensures Inv(c, OnMark(s, id))
  {
    if id in s.requests && s.requests[id].phase.Marking? {
      if HasRow(s.commands, id) {
        assert forall i :: i in s.commands ==> Owned(s, s.commands[i]);
        UpdateKeeps(c, s, OnMark(s, id), id);
      } else {
        EnterKeeps(c, s, id, Raised);
      }
    }
  }

  lemma SaveKeeps(c: Config, s: State, id: string)
    requires Inv(c, s)
    ensures Inv(c, OnSave(s, id))
  {
    if id in s.requests && s.requests[id].phase.Responding? {
      if HasRow(s.commands, id) {
        assert forall i :: i in s.commands ==> Owned(s, s.commands[i]);
        UpdateKeeps(c, s, OnSave(s, id), id);
      } else {
        EnterKeeps(c, s, id, Raised);
      }
    }
  }

  lemma ExpireKeeps(c: Config, s: State, deleted: set<nat>, now: int)
    requires Inv(c, s) && now <= s.latest
    ensures Inv(c, OnExpire(c, s, deleted, now))
  {
    var s' := OnExpire(c, s, deleted, now);
    forall id | id in s'.requests && Inserted(s'.requests[id].phase)
      ensures RowPresent(s', id, s'.requests[id])
    {
      var i :| InsertedRow(s, id, s.requests[id], i);
      assert InsertedRow(s', id, s'.requests[id], i);
    }
    LogFollows(c, s, s');
  }

  lemma ReadingKeeps(c: Config, s: State, now: int)
    requires Inv(c, s) && now >= s.latest
    ensures Inv(c, s.(latest := now))
  {
    var s' := s.(latest := now);
    forall id | id in s'.requests && Inserted(s'.requests[id].phase)
      ensures RowPresent(s', id, s'.requests[id])
    {
      var i :| InsertedRow(s, id, s.requests[id], i);
      assert InsertedRow(s', id, s'.requests[id], i);
    }
    LogFollows(c, s, s');
  }

  // ---------------------------------------------------------------------------------------------
  // The publishing step

  /** Whoever publishes under a key holds the row of that key, so every earlier publication under it is forgotten. */
  lemma EarlierIsForgotten(c: Config, s: State, id: string, p: Publish)
    requires KeysUnique(s) && RowsPresent(s) && Logged(c, s, p)
    requires id in s.requests && s.requests[id].phase.Publishing?
    requires p.key.Some? && p.key == s.requests[id].key
    ensures s.latest - p.stampedAt > c.retentionDays * DAY
  {
    var i :| InsertedRow(s, id, s.requests[id], i);
    forall j
      ensures !RowOfPublish(s, p, j)
    {
      assert RowOfPublish(s, p, j) ==> j == i;
    }
  }

  lemma PublishKeepsLog(c: Config, s: State, id: string, sent: bool, body: Json, now: int)
    requires Inv(c, s) && now <= s.latest
    requires id in s.requests && s.requests[id].phase.Publishing?
    ensures LogRemembered(c, OnPublish(s, id, sent, body, now)) && LogApart(c, OnPublish(s, id, sent, body, now))
  {
    var s' := OnPublish(s, id, sent, body, now);
    var i :| InsertedRow(s, id, s.requests[id], i);
    assert RowOfPublish(s', s'.log[|s.log|], i);
    forall k | 0 <= k < |s.log|
      ensures Logged(c, s', s.log[k])
      ensures SameKey(s.log[k], s'.log[|s.log|]) ==> s.latest - s.log[k].stampedAt > c.retentionDays * DAY
    {
      assert Logged(c, s, s.log[k]);
      LoggedFollows(c, s, s', s.log[k]);
      if SameKey(s.log[k], s'.log[|s.log|]) {
        EarlierIsForgotten(c, s, id, s.log[k]);
      }
    }
  }

  lemma PublishKeeps(c: Config, s: State, id: string, sent: bool, body: Json, now: int)
    requires Inv(c, s) && now <= s.latest
    ensures Inv(c, OnPublish(s, id, sent, body, now))
  {
    if id in s.requests && s.requests[id].phase.Publishing? {
      var s' := OnPublish(s, id, sent, body, now);
      PublishKeepsLog(c, s, id, sent, body, now);
      var i :| InsertedRow(s, id, s.requests[id], i);
      assert InsertedRow(s', id, s'.requests[id], i);
      PresentKeeps(s, s', id);
    }
  }

  // ---------------------------------------------------------------------------------------------
  // Every run

  lemma ActKeeps(c: Config, s: State, a: Action)
    requires Inv(c, s) && a.now <= s.latest
    ensures Inv(c, Act(c, s, a))
  {
    match a
    case Arrive(_, _, _, _) => ArriveKeeps(c, s, a);
    case Check(id, now) => CheckKeeps(c, s, id, now);
    case Insert(id, stampedAt, _) => InsertKeeps(c, s, id, stampedAt);
    case RefreshFails(id, body, _) => RefreshFailsKeeps(c, s, id, body);
    case PublishCommand(id, sent, body, now) => PublishKeeps(c, s, id, sent, body, now);
    case Mark(id, _) => MarkKeeps(c, s, id);
    case Save(id, _) => SaveKeeps(c, s, id);
    case Die(id, _) => if id in s.requests && !s.requests[id].phase.Answered? { EnterKeeps(c, s, id, Raised); }
    case Expire(deleted, now) => ExpireKeeps(c, s, deleted, now);
  }

  lemma StepKeeps(c: Config, s: State, a: Action)
    requires Inv(c, s)
    ensures Inv(c, Apply(c, s, a))
  {
    ReadingKeeps(c, s, Max(s.latest, a.now));
    ActKeeps(c, s.(latest := Max(s.latest, a.now)), a);
  }

  lemma {:induction false} RunKeeps(c: Config, s: State, actions: seq<Action>)
    requires Inv(c, s)
    ensures Inv(c, Run(c, s, actions))
    decreases |actions|
  {
    if actions != [] {
      RunKeeps(c, s, actions[..|actions| - 1]);
      StepKeeps(c, Run(c, s, actions[..|actions| - 1]), actions[|actions| - 1]);
    }
  }
}
