/** The HTTP command handler as the object it is: `plc_command` statement by statement, with any other request and retention
    cleanup acting between two of its operations. It is proved to be a run of the state machine in CommandApi. */
module CommandHandler {
  import opened Wrappers
  import opened Responses
  import opened Store
  import opened CommandApi
  import opened CommandSafety
  import BridgeDatabase

  /** The steps of a run that request id took. */
  function StepsOf(trace: seq<Action>, id: string): seq<Action> {
    if trace == [] then []
    else
      var last := trace[|trace| - 1];
      StepsOf(trace[..|trace| - 1], id) + if !last.Expire? && last.requestId == id then [last] else []
  }

  lemma StepsOfAppend(trace: seq<Action>, a: Action, id: string)
    requires !a.Expire? && a.requestId == id
    ensures StepsOf(trace + [a], id) == StepsOf(trace, id) + [a]
  {
    assert (trace + [a])[..|trace|] == trace;
  }

  /** The steps of marking a row and storing its answer. */
  function ConcludingSteps(id: string, clock: nat -> int): seq<Action> { [Mark(id, clock(4)), Save(id, clock(5))] }

  /** The steps of a request whose row was inserted: the command is published unless the refresh before it failed. */
  function CreatedSteps(id: string, refreshed: Option<bool>, sent: bool, body: Json, clock: nat -> int): seq<Action> {
    [if refreshed == Some(false) then RefreshFails(id, body, clock(3)) else PublishCommand(id, sent, body, clock(3))]
    + ConcludingSteps(id, clock)
  }

  /** The steps from the insertion on; when the key is taken, the key is looked up again. */
  function InsertingSteps(id: string, taken: bool, refreshed: Option<bool>, sent: bool, body: Json, clock: nat -> int)
    : seq<Action>
  {
    [Insert(id, clock(2), clock(2))]
    + if taken then [Check(id, clock(3))] else CreatedSteps(id, refreshed, sent, body, clock)
  }

  /** The steps of a valid request after its arrival, and those of a rejected one. */
  function ExecutingSteps(id: string, duplicate: bool, taken: bool, refreshed: Option<bool>, sent: bool, body: Json,
                          clock: nat -> int): seq<Action>
  {
    [Check(id, clock(1))] + if duplicate then [] else InsertingSteps(id, taken, refreshed, sent, body, clock)
  }

  function RejectingSteps(id: string, taken: bool, clock: nat -> int): seq<Action> {
    [Insert(id, clock(1), clock(1))] + if taken then [] else ConcludingSteps(id, clock)
  }

  /** The look-up of a key has one answer, since a key has one row. */
  lemma DuplicateIsUnique(c: Config, s: State, i: nat, key: Option<string>, now: int)
    requires KeysUnique(s) && HoldsKey(s.commands, i, key) && key != Some("")
    ensures DuplicateReply(c, s.commands, key, now)
            == if !WithinTtl(c, s.commands[i].receivedAt, now) then None
               else if s.commands[i].reply.None? then Some(PendingReply(s.commands[i].requestId))
               else s.commands[i].reply
  {
    assert KeyTaken(s.commands, key);
    assert forall j :: HoldsKey(s.commands, j, key) ==> j == i;
  }

  lemma Regroup(before: seq<Action>, some: seq<Action>, more: seq<Action>)
    ensures before + some + more == before + (some + more)
  {
  }

  class PlcCommandHandler {
    const config: Config
    const db: BridgeDatabase.Database

    ghost var latest: int
    ghost var requests: map<string, Request>
    ghost var log: seq<Publish>
    ghost var trace: seq<Action>
    ghost const origin: State

    ghost function View(): State
      reads this, db
    {
      State(db.commands, db.nextCommand, requests, log, latest)
    }

    ghost predicate Valid()
      reads this, db
    {
      Init(origin) && View() == Run(config, origin, trace)
    }

    /** Where request id stands. */
    ghost predicate At(id: string, key: Option<string>, phase: Phase)
      reads this`requests
    {
      id in requests && requests[id] == Request(key, phase)
    }

    constructor (config: Config, db: BridgeDatabase.Database, ghost latest: int, ghost past: map<string, Request>)
      requires Init(State(db.commands, db.nextCommand, past, [], latest))
      ensures Valid() && this.config == config && this.db == db && requests == past && log == []
    {
      this.config, this.db := config, db;
      this.latest := latest;
      requests, log, trace := past, [], [];
      origin := State(db.commands, db.nextCommand, past, [], latest);
    }

    lemma ValidIsSound()
      requires Valid()
      ensures Inv(config, View())
    {
      RunKeeps(config, origin, trace);
    }

    lemma Step(before: State, earlier: seq<Action>, a: Action)
      requires Init(origin) && before == Run(config, origin, earlier)
      requires trace == earlier + [a] && View() == Apply(config, before, a) && !a.Expire?
      ensures Valid() && StepsOf(trace, a.requestId) == StepsOf(earlier, a.requestId) + [a]
    {
      assert trace[..|earlier|] == earlier;
      StepsOfAppend(earlier, a, a.requestId);
    }

    /** Time passes, in which other requests and cleanup take any number of steps. */
    method OthersAct(ghost mine: string)
      requires Valid()
      modifies this`latest, this`requests, this`log, this`trace, db
      ensures Valid()
      ensures mine in requests <==> mine in old(requests)
      ensures mine in requests ==> requests[mine] == old(requests)[mine]
      ensures Unpublished(mine, old(log)) && StepsOf(trace, mine) == StepsOf(old(trace), mine)
    {
    }

    /** The request arrives; rejection is the answer to a body that is too large, malformed or invalid. */
    method Receive(id: string, key: Option<string>, rejection: Option<Reply>, now: int)
      requires Valid() && id !in requests
      modifies this`latest, this`requests, this`trace
      ensures Valid() && At(id, key, if rejection.None? then Checking else Inserting(rejection))
      ensures StepsOf(trace, id) == StepsOf(old(trace), id) + [Arrive(id, key, rejection, now)]
    {
      requests := requests[id := Request(key, if rejection.None? then Checking else Inserting(rejection))];
      latest := Max(latest, now);
      trace := trace + [Arrive(id, key, rejection, now)];
      Step(old(View()), old(trace), Arrive(id, key, rejection, now));
    }

    method GetDuplicateResponse(key: Option<string>, now: int) returns (reply: Option<Reply>)
      requires Valid()
      ensures reply == DuplicateReply(config, db.commands, key, now)
    {
      if key.None? || key.value == "" {
        return None;
      }
      var found := db.GetApiCommandByIdempotencyKey(key.value);
      if found.None? {
        return None;
      }
      ValidIsSound();
      DuplicateIsUnique(config, View(), found.value, key, now);
      var record := db.commands[found.value];
      if !WithinTtl(config, record.receivedAt, now) {
        return None;
      }
      if record.reply.None? {
        return Some(PendingReply(record.requestId));
      }
      return record.reply;
    }

    /** A look-up that finds an answer ends the request. */
    method LookUp(id: string, key: Option<string>, first: bool, now: int) returns (reply: Option<Reply>)
      requires Valid() && At(id, key, if first then Checking else Rechecking)
      modifies this`latest, this`requests, this`trace
      ensures Valid()
      ensures At(id, key, if reply.Some? then Answered(reply.value) else if first then Inserting(None) else Raised)
      ensures reply == DuplicateReply(config, db.commands, key, now)
      ensures StepsOf(trace, id) == StepsOf(old(trace), id) + [Check(id, now)]
    {
      reply := GetDuplicateResponse(key, now);
      var phase := if reply.Some? then Answered(reply.value) else if first then Inserting(None) else Raised;
      requests := requests[id := Request(key, phase)];
      latest := Max(latest, now);
      trace := trace + [Check(id, now)];
      Step(old(View()), old(trace), Check(id, now));
    }

    /** The row is created unless the key is taken. */
    method Insert(id: string, key: Option<string>, rejection: Option<Reply>, now: int) returns (created: bool)
      requires Valid() && At(id, key, Inserting(rejection))
      modifies this`latest, this`requests, this`trace, db
      ensures Valid() && (created <==> !KeyTaken(old(db.commands), key))
      ensures At(id, key, if created && rejection.None? then Publishing(now)
                          else if created then Marking(CommandRejected, rejection.value)
                          else if rejection.None? then Rechecking else Raised)
      ensures StepsOf(trace, id) == StepsOf(old(trace), id) + [Action.Insert(id, now, now)]
    {
      NoRowYet(id);
      created := db.CreateApiCommandRecord(id, key, now);
      var phase := if created && rejection.None? then Publishing(now)
                   else if created then Marking(CommandRejected, rejection.value)
                   else if rejection.None? then Rechecking else Raised;
      requests := requests[id := Request(key, phase)];
      latest := Max(latest, now);
      trace := trace + [Action.Insert(id, now, now)];
      Step(old(View()), old(trace), Action.Insert(id, now, now));
    }

    /** request_id is unique, so only the idempotency key can clash. */
    lemma NoRowYet(id: string)
      requires Valid() && id in requests && Early(requests[id].phase)
      ensures !HasRow(db.commands, id)
    {
      ValidIsSound();
      assert forall i :: i in db.commands ==> Owned(View(), db.commands[i]);
    }

    lemma RowIsThere(id: string)
      requires Valid() && id in requests && Inserted(requests[id].phase)
      ensures HasRow(db.commands, id)
    {
      ValidIsSound();
      var i :| InsertedRow(View(), id, requests[id], i);
      assert RowOf(db.commands, i, id);
    }

    /** Neither kind of failure is retried; both are answered 503. */
    method FailRefresh(id: string, key: Option<string>, ghost stampedAt: int, body: Json, now: int)
      requires Valid() && At(id, key, Publishing(stampedAt))
      modifies this`latest, this`requests, this`trace
      ensures Valid() && At(id, key, Marking(CommandFailed, Reply(503, body)))
      ensures StepsOf(trace, id) == StepsOf(old(trace), id) + [RefreshFails(id, body, now)]
    {
      requests := requests[id := Request(key, Marking(CommandFailed, Reply(503, body)))];
      latest := Max(latest, now);
      trace := trace + [RefreshFails(id, body, now)];
      Step(old(View()), old(trace), RefreshFails(id, body, now));
    }

    method Send(id: string, key: Option<string>, ghost stampedAt: int, sent: bool, body: Json, now: int)
      requires Valid() && At(id, key, Publishing(stampedAt))
      modifies this`latest, this`requests, this`log, this`trace
      ensures Valid()
      ensures At(id, key, if sent then Marking(Published, Reply(200, body)) else Marking(CommandFailed, Reply(503, body)))
      ensures log == old(log) + [Publish(id, key, stampedAt, now, latest)]
      ensures StepsOf(trace, id) == StepsOf(old(trace), id) + [PublishCommand(id, sent, body, now)]
    {
      var phase := if sent then Marking(Published, Reply(200, body)) else Marking(CommandFailed, Reply(503, body));
      requests := requests[id := Request(key, phase)];
      latest := Max(latest, now);
      log := log + [Publish(id, key, stampedAt, now, latest)];
      trace := trace + [PublishCommand(id, sent, body, now)];
      Step(old(View()), old(trace), PublishCommand(id, sent, body, now));
    }

    /** The row is always found. */
    method MarkResult(id: string, key: Option<string>, status: CommandStatus, answer: Reply, now: int)
      requires Valid() && At(id, key, Marking(status, answer))
      modifies this`latest, this`requests, this`trace, db
      ensures Valid() && At(id, key, Responding(answer))
      ensures StepsOf(trace, id) == StepsOf(old(trace), id) + [Mark(id, now)]
    {
      RowIsThere(id);
      var found := db.UpdateApiCommandResult(id, status);
      requests := requests[id := Request(key, Responding(answer))];
      latest := Max(latest, now);
      trace := trace + [Mark(id, now)];
      Step(old(View()), old(trace), Mark(id, now));
    }

    /** Cleanup may have deleted the row since it was marked; the handler then raises. */
    method SaveResponse(id: string, key: Option<string>, answer: Reply, now: int) returns (saved: bool)
      requires Valid() && At(id, key, Responding(answer))
      modifies this`latest, this`requests, this`trace, db
      ensures Valid() && At(id, key, if saved then Answered(answer) else Raised)
      ensures saved <==> HasRow(old(db.commands), id)
      ensures StepsOf(trace, id) == StepsOf(old(trace), id) + [Save(id, now)]
    {
      saved := db.SaveApiResponse(id, answer);
      if !saved {
        assert forall i :: i in old(db.commands) ==> !RowOf(old(db.commands), i, id);
        assert db.commands == old(db.commands);
      }
      requests := requests[id := Request(key, if saved then Answered(answer) else Raised)];
      latest := Max(latest, now);
      trace := trace + [Save(id, now)];
      Step(old(View()), old(trace), Save(id, now));
    }

    /** Request id has published nothing while the log grew from before. */
    ghost predicate Unpublished(id: string, before: seq<Publish>)
      reads this`log
    {
      before <= log && forall k :: |before| <= k < |log| ==> log[k].requestId != id
    }

    /** The rest of a request whose row was inserted: mark it, store the answer, give it. */
    method Conclude(id: string, key: Option<string>, status: CommandStatus, answer: Reply, clock: nat -> int)
      returns (given: Option<Reply>)
      requires Valid() && At(id, key, Marking(status, answer))
      modifies this, db
      ensures Valid() && Unpublished(id, old(log))
      ensures given in {None, Some(answer)}
      ensures StepsOf(trace, id) == StepsOf(old(trace), id) + ConcludingSteps(id, clock)
      ensures At(id, key, if given.Some? then Answered(answer) else Raised)
    {
      OthersAct(id);
      MarkResult(id, key, status, answer, clock(4));
      OthersAct(id);
      var saved := SaveResponse(id, key, answer, clock(5));
      return if saved then Some(answer) else None;
    }

    /** The command is handed to MQTT; whether it was taken decides the answer. */
    method SendAndConclude(id: string, key: Option<string>, ghost stampedAt: int, sent: bool, body: Json,
                           clock: nat -> int) returns (answer: Option<Reply>)
      requires Valid() && At(id, key, Publishing(stampedAt))
      modifies this, db
      ensures Valid() && At(id, key, if answer.Some? then Answered(answer.value) else Raised)
      ensures answer in {None, Some(Reply(if sent then 200 else 503, body))}
      ensures StepsOf(trace, id)
              == StepsOf(old(trace), id) + ([PublishCommand(id, sent, body, clock(3))] + ConcludingSteps(id, clock))
    {
      Send(id, key, stampedAt, sent, body, clock(3));
      if sent {
        answer := Conclude(id, key, Published, Reply(200, body), clock);
      } else {
        answer := Conclude(id, key, CommandFailed, Reply(503, body), clock);
      }
    }

    /** The row is there: refresh, publish, and conclude either way. */
    method PublishCreated(id: string, key: Option<string>, ghost stampedAt: int, refreshed: Option<bool>, sent: bool,
                          body: Json, clock: nat -> int) returns (answer: Option<Reply>)
      requires Valid() && At(id, key, Publishing(stampedAt))
      modifies this, db
      ensures Valid() && At(id, key, if answer.Some? then Answered(answer.value) else Raised)
      ensures refreshed == Some(false) ==> Unpublished(id, old(log))
      ensures answer in {None, Some(Reply(if refreshed == Some(false) || !sent then 503 else 200, body))}
      ensures StepsOf(trace, id) == StepsOf(old(trace), id) + CreatedSteps(id, refreshed, sent, body, clock)
    {
      OthersAct(id);
      if refreshed == Some(false) {
        FailRefresh(id, key, stampedAt, body, clock(3));
        answer := Conclude(id, key, CommandFailed, Reply(503, body), clock);
      } else {
        answer := SendAndConclude(id, key, stampedAt, sent, body, clock);
      }
    }

    method LookUpAgain(id: string, key: Option<string>, now: int) returns (answer: Option<Reply>)
      requires Valid() && At(id, key, Rechecking)
      modifies this, db
      ensures Valid() && At(id, key, if answer.Some? then Answered(answer.value) else Raised) && Unpublished(id, old(log))
      ensures StepsOf(trace, id) == StepsOf(old(trace), id) + [Check(id, now)]
    {
      OthersAct(id);
      answer := LookUp(id, key, false, now);
    }

    /** The key was free at the look-up: insert the row, and publish, or look again when another request was faster. found are
        the rows at the insertion. */
    method InsertCommand(id: string, key: Option<string>, refreshed: Option<bool>, sent: bool, body: Json, clock: nat -> int)
      returns (answer: Option<Reply>, ghost found: map<nat, Command>)
      requires Valid() && At(id, key, Inserting(None))
      modifies this, db
      ensures Valid() && At(id, key, if answer.Some? then Answered(answer.value) else Raised)
      ensures refreshed == Some(false) || KeyTaken(found, key) ==> Unpublished(id, old(log))
      ensures !KeyTaken(found, key) ==>
        answer in {None, Some(Reply(if refreshed == Some(false) || !sent then 503 else 200, body))}
      ensures StepsOf(trace, id)
              == StepsOf(old(trace), id) + InsertingSteps(id, KeyTaken(found, key), refreshed, sent, body, clock)
    {
      OthersAct(id);
      found := db.commands;
      var created := Insert(id, key, None, clock(2));
      if created {
        answer := PublishCreated(id, key, clock(2), refreshed, sent, body, clock);
        Regroup(StepsOf(old(trace), id), [Action.Insert(id, clock(2), clock(2))],
                CreatedSteps(id, refreshed, sent, body, clock));
      } else {
        answer := LookUpAgain(id, key, clock(3));
      }
    }

    /** A valid command: looked up, inserted, published, marked, answered. refreshed is how the BR refresh before a print
        job ended, if there was one; sent is whether MQTT took the command. No answer stands for an exception; looked are the
        rows at the look-up, found those at the insertion. */
    method ExecuteCommand(id: string, key: Option<string>, refreshed: Option<bool>, sent: bool, body: Json,
                          clock: nat -> int)
      returns (answer: Option<Reply>, ghost looked: map<nat, Command>, ghost found: map<nat, Command>)
      requires Valid() && At(id, key, Checking)
      modifies this, db
      ensures Valid() && At(id, key, if answer.Some? then Answered(answer.value) else Raised)
      ensures refreshed == Some(false) ==> Unpublished(id, old(log))
      ensures var duplicate := DuplicateReply(config, looked, key, clock(1));
        && (duplicate.Some? ==> answer == duplicate)
        && (duplicate.None? && !KeyTaken(found, key) ==>
              answer in {None, Some(Reply(if refreshed == Some(false) || !sent then 503 else 200, body))})
      ensures StepsOf(trace, id) == StepsOf(old(trace), id)
                + ExecutingSteps(id, DuplicateReply(config, looked, key, clock(1)).Some?, KeyTaken(found, key),
                                 refreshed, sent, body, clock)
    {
      OthersAct(id);
      looked, found := db.commands, db.commands;
      answer := LookUp(id, key, true, clock(1));
      if answer.None? {
        answer, found := InsertCommand(id, key, refreshed, sent, body, clock);
        Regroup(StepsOf(old(trace), id), [Check(id, clock(1))],
                InsertingSteps(id, KeyTaken(found, key), refreshed, sent, body, clock));
      }
    }

    /** A body that is too large, malformed or invalid: recorded, and answered with the rejection, unless the key is taken. */
    method RejectRequest(id: string, key: Option<string>, rejection: Reply, clock: nat -> int)
      returns (answer: Option<Reply>, ghost found: map<nat, Command>)
      requires Valid() && At(id, key, Inserting(Some(rejection)))
      modifies this, db
      ensures Valid() && At(id, key, if answer.Some? then Answered(answer.value) else Raised)
      ensures answer in {None, Some(rejection)} && Unpublished(id, old(log))
      ensures StepsOf(trace, id) == StepsOf(old(trace), id) + RejectingSteps(id, KeyTaken(found, key), clock)
    {
      OthersAct(id);
      found := db.commands;
      var created := Insert(id, key, Some(rejection), clock(1));
      answer := None;
      if created {
        answer := Conclude(id, key, CommandRejected, rejection, clock);
      }
    }

    /** One HTTP request. rejection is the answer to a body that is too large, malformed or invalid, clock(k) the k-th
        reading of a clock that may step back. */
    method PlcCommand(id: string, key: Option<string>, rejection: Option<Reply>,
                      refreshed: Option<bool>, sent: bool, body: Json, clock: nat -> int)
      returns (answer: Option<Reply>, ghost looked: map<nat, Command>, ghost found: map<nat, Command>)
      requires Valid() && id !in requests
      modifies this, db
      ensures Valid() && At(id, key, if answer.Some? then Answered(answer.value) else Raised)
      ensures rejection.Some? ==> answer in {None, rejection} && Unpublished(id, old(log))
      ensures refreshed == Some(false) ==> Unpublished(id, old(log))
      ensures StepsOf(trace, id) == StepsOf(old(trace), id) + [Arrive(id, key, rejection, clock(0))]
                + if rejection.Some? then RejectingSteps(id, KeyTaken(found, key), clock)
                  else ExecutingSteps(id, DuplicateReply(config, looked, key, clock(1)).Some?, KeyTaken(found, key),
                                      refreshed, sent, body, clock)
    {
      Receive(id, key, rejection, clock(0));
      looked := db.commands;
      if rejection.Some? {
        answer, found := RejectRequest(id, key, rejection.value, clock);
      } else {
        answer, looked, found := ExecuteCommand(id, key, refreshed, sent, body, clock);
      }
    }
  }
}
