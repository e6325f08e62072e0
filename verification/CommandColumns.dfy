/** What each step of an HTTP request does to its row and its answer, and what a request on its own comes to. */
module CommandColumns {
  import opened Wrappers
  import opened Clock
  import opened Responses
  import opened Store
  import opened CommandApi
  import opened CommandSafety
  import opened CommandGuarantees

  /** 409 names the request whose answer is still to come. */
  function Pending(requestId: string): Reply {
    Reply(409, Obj(map["success" := Bool(false), "status" := Str("duplicate_pending"), "request_id" := Str(requestId),
                       "error" := Str("Original request is still being processed")]))
  }

  /** A look-up of a key within its time to live answers with what the row stores, or with 409, and changes nothing. */
  lemma LookUpInColumns(c: Config, s: State, a: Action, i: nat)
    requires KeysUnique(s) && LooksUp(s, a)
    requires HoldsKey(s.commands, i, s.requests[a.requestId].key) && s.requests[a.requestId].key != Some("")
    requires c.ttlSeconds > 0 && s.commands[i].receivedAt * 1_000_000 >= a.now - c.ttlSeconds * 1_000_000
    ensures MerelyAnswers(c, s, a, if s.commands[i].reply.Some? then s.commands[i].reply.value
                                   else Pending(s.commands[i].requestId))
  {
    LookUpAnswers(c, s, a, i);
  }

  /** Without a row for its key, with one beyond its time to live, or with an empty or no key, a first look-up leads on, and a
      second one raises. */
  lemma LookUpLeadsOn(c: Config, s: State, id: string, now: int)
    requires KeysUnique(s) && id in s.requests && s.requests[id].phase in {Checking, Rechecking}
    requires var key := s.requests[id].key;
      key in {None, Some("")}
      || forall i :: HoldsKey(s.commands, i, key) ==>
           c.ttlSeconds <= 0 || s.commands[i].receivedAt * 1_000_000 < now - c.ttlSeconds * 1_000_000
    ensures Apply(c, s, Check(id, now))
            == s.(latest := Max(s.latest, now),
                  requests := s.requests[id := Request(s.requests[id].key,
                                                       if s.requests[id].phase == Checking then Inserting(None) else Raised)])
  {
  }

  /** A new request is looked up first, or recorded at once when its body is rejected. */
  lemma ArriveInColumns(c: Config, s: State, id: string, key: Option<string>, rejection: Option<Reply>, now: int)
    requires id !in s.requests
    ensures Apply(c, s, Arrive(id, key, rejection, now))
            == s.(latest := Max(s.latest, now),
                  requests := s.requests[id := Request(key, if rejection.None? then Checking else Inserting(rejection))])
  {
  }

  /** With a free key the row is there from now on: RECEIVED, at the truncated time, without an answer. */
  lemma InsertInColumns(c: Config, s: State, id: string, now: int)
    requires id in s.requests && s.requests[id].phase.Inserting? && !KeyTaken(s.commands, s.requests[id].key)
    ensures var key, rejection := s.requests[id].key, s.requests[id].phase.rejection;
      Apply(c, s, Insert(id, now, now))
      == s.(latest := Max(s.latest, now), nextCommand := s.nextCommand + 1,
            commands := s.commands[s.nextCommand := Command(id, key, now / 1_000_000, Received, None)],
            requests := s.requests[id := Request(key, if rejection.None? then Publishing(now)
                                                      else Marking(CommandRejected, rejection.value))])
  {
  }

  /** With a taken key nothing is inserted: a valid request looks the key up again, a rejected one raises. */
  lemma InsertMeetsTakenKey(c: Config, s: State, id: string, now: int)
    requires id in s.requests && s.requests[id].phase.Inserting? && KeyTaken(s.commands, s.requests[id].key)
    ensures Apply(c, s, Insert(id, now, now))
            == s.(latest := Max(s.latest, now),
                  requests := s.requests[id := Request(s.requests[id].key,
                                                       if s.requests[id].phase.rejection.None? then Rechecking else Raised)])
  {
  }

  /** The command is handed to MQTT once; 200 and PUBLISHED if it was taken, 503 and FAILED if not. A failed refresh is 503 and
      FAILED without a publication. */
  lemma PublishInColumns(c: Config, s: State, id: string, sent: bool, body: Json, now: int)
    requires id in s.requests && s.requests[id].phase.Publishing?
    ensures var key, at := s.requests[id].key, s.requests[id].phase.stampedAt;
      var s' := Apply(c, s, PublishCommand(id, sent, body, now));
      && s'.log == s.log + [Publish(id, key, at, now, Max(s.latest, now))]
      && s' == s.(latest := Max(s.latest, now), log := s'.log,
                  requests := s.requests[id := Request(key, Marking(if sent then Published else CommandFailed,
                                                                    Reply(if sent then 200 else 503, body)))])
    ensures Apply(c, s, RefreshFails(id, body, now))
            == s.(latest := Max(s.latest, now),
                  requests := s.requests[id := Request(s.requests[id].key, Marking(CommandFailed, Reply(503, body)))])
  {
  }

  ghost predicate OnlyRowOf(s: State, i: nat, id: string) {
    RowOf(s.commands, i, id) && forall j :: RowOf(s.commands, j, id) ==> j == i
  }

  /** The mark and the answer go to the row of the request. */
  lemma MarkInColumns(c: Config, s: State, id: string, i: nat, now: int)
    requires id in s.requests && s.requests[id].phase.Marking? && OnlyRowOf(s, i, id)
    ensures var phase := s.requests[id].phase;
      Apply(c, s, Mark(id, now))
      == s.(latest := Max(s.latest, now), commands := s.commands[i := s.commands[i].(status := phase.status)],
            requests := s.requests[id := Request(s.requests[id].key, Responding(phase.answer))])
  {
    assert HasRow(s.commands, id);
    assert forall j :: j in s.commands && s.commands[j].requestId == id ==> RowOf(s.commands, j, id);
  }

  lemma SaveInColumns(c: Config, s: State, id: string, i: nat, now: int)
    requires id in s.requests && s.requests[id].phase.Responding? && OnlyRowOf(s, i, id)
    ensures var answer := s.requests[id].phase.answer;
      Apply(c, s, Save(id, now))
      == s.(latest := Max(s.latest, now), commands := s.commands[i := s.commands[i].(reply := Some(answer))],
            requests := s.requests[id := Request(s.requests[id].key, Answered(answer))])
  {
    assert HasRow(s.commands, id);
    assert forall j :: j in s.commands && s.commands[j].requestId == id ==> RowOf(s.commands, j, id);
  }

  /** When the row is gone by then, the handler raises. */
  lemma StepsWithoutRow(c: Config, s: State, id: string, now: int)
    requires id in s.requests && !HasRow(s.commands, id)
    ensures var raised := s.(latest := Max(s.latest, now), requests := s.requests[id := Request(s.requests[id].key, Raised)]);
      && (s.requests[id].phase.Marking? ==> Apply(c, s, Mark(id, now)) == raised)
      && (s.requests[id].phase.Responding? ==> Apply(c, s, Save(id, now)) == raised)
  {
  }

  /** A request that dies before it has answered raises, and leaves its row as it was. */
  lemma DieInColumns(c: Config, s: State, id: string, now: int)
    requires id in s.requests && !s.requests[id].phase.Answered?
    ensures Apply(c, s, Die(id, now))
            == s.(latest := Max(s.latest, now), requests := s.requests[id := Request(s.requests[id].key, Raised)])
  {
  }

  // ---------------------------------------------------------------------------------------------
  // A request on its own

  lemma InsertedIsOnlyRow(s: State, s': State, id: string)
    requires KeysUnique(s) && RowsOwned(s) && id in s.requests && Early(s.requests[id].phase)
    requires s.nextCommand in s'.commands && s'.commands[s.nextCommand].requestId == id
    requires s'.commands == s.commands[s.nextCommand := s'.commands[s.nextCommand]]
    ensures OnlyRowOf(s', s.nextCommand, id)
  {
    assert forall i :: i in s.commands ==> Owned(s, s.commands[i]);
  }

  /** From its inserted row on, a request is marked and answered as it was going to be. */
  lemma ConclusionInColumns(c: Config, s: State, id: string, i: nat, status: CommandStatus, answer: Reply, at: int, now: int)
    requires id in s.requests && s.requests[id].phase == Marking(status, answer) && OnlyRowOf(s, i, id)
    ensures var s' := Apply(c, Apply(c, s, Mark(id, at)), Save(id, now));
      && s'.commands == s.commands[i := s.commands[i].(status := status, reply := Some(answer))] && s'.log == s.log
      && s'.requests == s.requests[id := Request(s.requests[id].key, Answered(answer))]
  {
    MarkInColumns(c, s, id, i, at);
    var s1 := Apply(c, s, Mark(id, at));
    assert forall j :: RowOf(s1.commands, j, id) ==> RowOf(s.commands, j, id);
    SaveInColumns(c, s1, id, i, now);
  }

  /** A valid request whose key is free is published once, and its row and its answer say whether MQTT took the command. */
  lemma ValidRequestInColumns(c: Config, s: State, id: string, sent: bool, body: Json, now: int)
    requires KeysUnique(s) && RowsOwned(s) && id in s.requests && s.requests[id].phase == Inserting(None)
    requires !KeyTaken(s.commands, s.requests[id].key)
    ensures var key, answer := s.requests[id].key, Reply(if sent then 200 else 503, body);
      var s2 := Apply(c, Apply(c, s, Insert(id, now, now)), PublishCommand(id, sent, body, now));
      var s' := Apply(c, Apply(c, s2, Mark(id, now)), Save(id, now));
      && s'.requests == s.requests[id := Request(key, Answered(answer))]
      && s'.commands == s.commands[s.nextCommand := Command(id, key, now / 1_000_000, if sent then Published else CommandFailed,
                                                            Some(answer))]
      && s'.log == s.log + [Publish(id, key, now, now, Max(s.latest, now))]
  {
    InsertInColumns(c, s, id, now);
    var s1 := Apply(c, s, Insert(id, now, now));
    PublishInColumns(c, s1, id, sent, body, now);
    var s2 := Apply(c, s1, PublishCommand(id, sent, body, now));
    InsertedIsOnlyRow(s, s2, id);
    ConclusionInColumns(c, s2, id, s.nextCommand, if sent then Published else CommandFailed,
                        Reply(if sent then 200 else 503, body), now, now);
  }

  /** A rejected request whose key is free leaves a REJECTED row, is answered with the rejection, and publishes nothing. */
  lemma RejectedRequestInColumns(c: Config, s: State, id: string, rejection: Reply, now: int)
    requires KeysUnique(s) && RowsOwned(s) && id in s.requests && s.requests[id].phase == Inserting(Some(rejection))
    requires !KeyTaken(s.commands, s.requests[id].key)
    ensures var key := s.requests[id].key;
      var s' := Apply(c, Apply(c, Apply(c, s, Insert(id, now, now)), Mark(id, now)), Save(id, now));
      && s'.requests == s.requests[id := Request(key, Answered(rejection))] && s'.log == s.log
      && s'.commands == s.commands[s.nextCommand := Command(id, key, now / 1_000_000, CommandRejected, Some(rejection))]
  {
    InsertInColumns(c, s, id, now);
    var s1 := Apply(c, s, Insert(id, now, now));
    InsertedIsOnlyRow(s, s1, id);
    ConclusionInColumns(c, s1, id, s.nextCommand, CommandRejected, rejection, now, now);
  }
}
