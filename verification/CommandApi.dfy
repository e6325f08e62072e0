/** The HTTP command handler: requests interleaved at every database and MQTT operation, and retention cleanup
    deleting old command rows in between. */
module CommandApi {
  import opened Wrappers
  import opened Clock
  import opened Responses
  import opened Store

  datatype Config = Config(ttlSeconds: int, retentionDays: nat)

  /** Where one execution of plc_command stands. rejection is the 413 or 422 answer of an invalid body. */
  datatype Phase =
    | Checking                                                  // before _get_duplicate_response
    | Inserting(rejection: Option<Reply>)                       // before create_api_command_record commits
    | Rechecking                                                // after an IntegrityError, before the second look-up
    | Publishing(stampedAt: int)                                // row inserted, command not published yet
    | Marking(status: CommandStatus, answer: Reply)             // before mark_api_command_*
    | Responding(answer: Reply)                                 // before save_api_response
    | Answered(answer: Reply)
    | Raised                                                    // an unhandled exception, or the process died

  datatype Request = Request(key: Option<string>, phase: Phase)

  /** A command handed to MQTT. stampedAt is the clock reading that became its received_at, at the one of its publication,
      seen the highest by then; with a clock that never steps back at and seen are the same. */
  datatype Publish = Publish(requestId: string, key: Option<string>, stampedAt: int, at: int, seen: int)

  /** latest is the highest clock reading so far. */
  datatype State = State(
    commands: map<nat, Command>, nextCommand: nat,
    requests: map<string, Request>, log: seq<Publish>, latest: int)

  function Max(a: int, b: int): int { if a < b then b else a }

  datatype Action =
    | Arrive(requestId: string, key: Option<string>, rejection: Option<Reply>, now: int)
    | Check(requestId: string, now: int)
    | Insert(requestId: string, stampedAt: int, now: int)
    | RefreshFails(requestId: string, body: Json, now: int)             // BR refresh before the command fails
    | PublishCommand(requestId: string, sent: bool, body: Json, now: int)
    | Mark(requestId: string, now: int)
    | Save(requestId: string, now: int)
    | Die(requestId: string, now: int)
    | Expire(deleted: set<nat>, now: int)                               // cleanup_raw_operational_data

  ghost predicate HoldsKey(commands: map<nat, Command>, i: nat, key: Option<string>) {
    i in commands && key.Some? && commands[i].key == key
  }

  ghost predicate KeyTaken(commands: map<nat, Command>, key: Option<string>) {
    exists i :: HoldsKey(commands, i, key)
  }

  ghost predicate RowOf(commands: map<nat, Command>, i: nat, requestId: string) {
    i in commands && commands[i].requestId == requestId
  }

  ghost predicate HasRow(commands: map<nat, Command>, requestId: string) {
    exists i :: RowOf(commands, i, requestId)
  }

  /** `received_at >= now - ttl`, with received_at truncated and now not. */
  predicate WithinTtl(c: Config, receivedAt: int, now: int) {
    c.ttlSeconds > 0 && receivedAt * SECOND >= now - c.ttlSeconds * SECOND
  }

  /** The 409 answer names the request that is still being processed. */
  function PendingReply(requestId: string): Reply {
    Reply(409, Obj(map["success" := Bool(false), "status" := Str("duplicate_pending"),
                       "request_id" := Str(requestId),
                       "error" := Str("Original request is still being processed")]))
  }

  /** _get_duplicate_response; an empty key is never looked up. */
  ghost function DuplicateReply(c: Config, commands: map<nat, Command>, key: Option<string>, now: int): Option<Reply> {
    if key.None? || key.value == "" || !KeyTaken(commands, key) then None
    else
      var i :| HoldsKey(commands, i, key);
      if !WithinTtl(c, commands[i].receivedAt, now) then None
      else if commands[i].reply.None? then Some(PendingReply(commands[i].requestId))
      else commands[i].reply
  }

  function Enter(s: State, requestId: string, phase: Phase): State
    requires requestId in s.requests
  {
    s.(requests := s.requests[requestId := s.requests[requestId].(phase := phase)])
  }

  /** A look-up that finds nothing leads on to the insertion the first time, and raises the second time. */
  ghost function OnCheck(c: Config, s: State, id: string, now: int): State {
    if id !in s.requests || !(s.requests[id].phase.Checking? || s.requests[id].phase.Rechecking?) then s
    else
      var duplicate := DuplicateReply(c, s.commands, s.requests[id].key, now);
      Enter(s, id, if duplicate.Some? then Answered(duplicate.value)
                   else if s.requests[id].phase.Checking? then Inserting(None) else Raised)
  }

  /** The INSERT; a taken key is an IntegrityError, which only the valid path catches. */
  ghost function OnInsert(s: State, id: string, stampedAt: int): State {
    if id !in s.requests || !s.requests[id].phase.Inserting? then s
    else
      var r := s.requests[id];
      if KeyTaken(s.commands, r.key) then Enter(s, id, if r.phase.rejection.None? then Rechecking else Raised)
      else
        Enter(s, id, if r.phase.rejection.None? then Publishing(stampedAt)
                     else Marking(CommandRejected, r.phase.rejection.value))
        .(commands := s.commands[s.nextCommand := Command(id, r.key, Stored(stampedAt), Received, None)],
          nextCommand := s.nextCommand + 1,
          latest := Max(s.latest, stampedAt))
  }

  /** publish_plc_command: what is answered depends on whether MQTT took it, what is logged does not. */
  function OnPublish(s: State, id: string, sent: bool, body: Json, now: int): State {
    if id !in s.requests || !s.requests[id].phase.Publishing? then s
    else
      var r := s.requests[id];
      Enter(s, id, if sent then Marking(Published, Reply(200, body)) else Marking(CommandFailed, Reply(503, body)))
      .(log := s.log + [Publish(id, r.key, r.phase.stampedAt, now, s.latest)])
  }

  function OnRefreshFails(s: State, id: string, body: Json): State {
    if id !in s.requests || !s.requests[id].phase.Publishing? then s
    else Enter(s, id, Marking(CommandFailed, Reply(503, body)))
  }

  function WithStatus(commands: map<nat, Command>, id: string, status: CommandStatus): map<nat, Command> {
    map i | i in commands :: if commands[i].requestId == id then commands[i].(status := status) else commands[i]
  }

  function WithReply(commands: map<nat, Command>, id: string, answer: Reply): map<nat, Command> {
    map i | i in commands :: if commands[i].requestId == id then commands[i].(reply := Some(answer)) else commands[i]
  }

  /** An UPDATE by request_id; when the row is gone the handler raises. */
  ghost function OnMark(s: State, id: string): State {
    if id !in s.requests || !s.requests[id].phase.Marking? then s
    else if !HasRow(s.commands, id) then Enter(s, id, Raised)
    else
      var status := s.requests[id].phase.status;
      Enter(s, id, Responding(s.requests[id].phase.answer))
      .(commands := WithStatus(s.commands, id, status))
  }

  ghost function OnSave(s: State, id: string): State {
    if id !in s.requests || !s.requests[id].phase.Responding? then s
    else if !HasRow(s.commands, id) then Enter(s, id, Raised)
    else
      var answer := s.requests[id].phase.answer;
      Enter(s, id, Answered(answer))
      .(commands := WithReply(s.commands, id, answer))
  }

  function OnExpire(c: Config, s: State, deleted: set<nat>, now: int): State {
    if forall i :: i in deleted ==> i in s.commands && CommandExpired(s.commands[i], Cutoff(now, c.retentionDays))
    then s.(commands := map i | i in s.commands && i !in deleted :: s.commands[i])
    else s
  }

  ghost function Act(c: Config, s: State, a: Action): State {
    match a
    case Arrive(id, key, rejection, _) =>
      if id in s.requests then s
      else s.(requests := s.requests[id := Request(key, if rejection.None? then Checking else Inserting(rejection))])
    case Check(id, now) => OnCheck(c, s, id, now)
    case Insert(id, stampedAt, _) => OnInsert(s, id, stampedAt)
    case RefreshFails(id, body, _) => OnRefreshFails(s, id, body)
    case PublishCommand(id, sent, body, now) => OnPublish(s, id, sent, body, now)
    case Mark(id, _) => OnMark(s, id)
    case Save(id, _) => OnSave(s, id)
    case Die(id, _) => if id in s.requests && !s.requests[id].phase.Answered? then Enter(s, id, Raised) else s
    case Expire(deleted, now) => OnExpire(c, s, deleted, now)
  }

  /** One step, whatever the clock reads. */
  ghost function Apply(c: Config, s: State, a: Action): State { Act(c, s.(latest := Max(s.latest, a.now)), a) }

  ghost function Run(c: Config, s: State, actions: seq<Action>): State
    decreases |actions|
  {
    if actions == [] then s else Apply(c, Run(c, s, actions[..|actions| - 1]), actions[|actions| - 1])
  }
}
